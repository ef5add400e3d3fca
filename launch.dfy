/** The run half of `Runner.launch` (suite/runner.py): check the environment,
    order the collected records by group and name, run the simulator on each
    test, classify what it printed, and write the run outcome and the verdict
    into each record in place. */
module Launch {
  import opened Exceptions
  import opened Data
  import opened Text
  import opened Runner

  /** What running the simulator on one test binary gave. */
  datatype Outcome =
    | NotStarted                                // the simulator executable was not found (FileNotFoundError)
    | TimedOut                                  // no answer within the timeout
    | Completed(exitCode: int, stdout: string)  // it ran to the end, whatever its exit status

  /** `f"{stdout} {stderr}"`: with stderr merged into stdout, stderr is None. */
  function CommandOutput(stdout: string): string {
    stdout + " None"
  }

  const FailedMarker: string := "FAILED"
  const SuccessMarker: string := "SUCCESS"

  /** The text that follows the captured output cannot complete a marker that
      has no space and is longer than that text. */
  lemma NoneSuffixAddsNoMarker(s: string, m: string)
    requires ' ' !in m && |m| > |" None"|
    ensures Contains(CommandOutput(s), m) <==> Contains(s, m)
  {
    var t := CommandOutput(s);
    assert t[|s|] == ' ';
    forall k | 0 <= k <= |t| && OccursAt(t, m, k)
      ensures OccursAt(s, m, k)
    {
      assert forall j :: k <= j < k + |m| ==> t[j] == m[j - k];
      assert k + |m| <= |s|;
      assert s[k..k + |m|] == t[k..k + |m|];
    }
    ContainsIffOccurs(t, m);
    ContainsIffOccurs(s, m);
    if Contains(s, m) {
      FindExtend(s, " None", m);
    }
  }

  /** The run outcome of one simulator run: `FAILED` in the output wins over
      `SUCCESS`; output with neither is not understood; a run that did not
      complete is an error, its output unread. */
  function ClassifyRun(o: Outcome): (r: Result<RunResult>)
    ensures !o.Completed? ==> r == Ok(RunResult.Error)
    ensures o.Completed? ==> (r == Ok(RunResult.Failure) <==> Contains(o.stdout, FailedMarker))
    ensures o.Completed? ==>
              (r == Ok(RunResult.Success) <==> !Contains(o.stdout, FailedMarker) && Contains(o.stdout, SuccessMarker))
    ensures o.Completed? ==>
              (r.Err? <==> !Contains(o.stdout, FailedMarker) && !Contains(o.stdout, SuccessMarker))
    ensures r.Err? ==> r.error == UnknownTestResult
  {
    match o
    case Completed(_, stdout) =>
      var commandOutput := CommandOutput(stdout);
      NoneSuffixAddsNoMarker(stdout, FailedMarker);
      NoneSuffixAddsNoMarker(stdout, SuccessMarker);
      if Contains(commandOutput, FailedMarker) then Ok(RunResult.Failure)
      else if Contains(commandOutput, SuccessMarker) then Ok(RunResult.Success)
      else Err(UnknownTestResult)
    case _ => Ok(RunResult.Error)
  }

  /** A record after its run: the run outcome and the verdict set, its
      identity and its expected outcome untouched. */
  function Execute(t: TestData, run: RunResult): (u: TestData)
    ensures u.name == t.name && u.group == t.group && u.expected == t.expected
    ensures u.run == run && u.result == DefineTestRes(t.expected, run)
  {
    t.(run := run, result := DefineTestRes(t.expected, run))
  }

  /** One test of the batch, where `sim` gives the outcome of running the
      binary of the test with a given name. */
  function RunTest(t: TestData, sim: string -> Outcome): (r: Result<TestData>)
    ensures r.Ok? <==> ClassifyRun(sim(t.name)).Ok?
    ensures r.Ok? ==> r.value == Execute(t, ClassifyRun(sim(t.name)).value)
    ensures r.Err? ==> r.error == UnknownTestResult
  {
    var run :- ClassifyRun(sim(t.name));
    Ok(Execute(t, run))
  }

  // The order of the batch: `sorted(test_structs, key=lambda x: (x["group"], x["name"]))`.

  /** `(a.group, a.name) <= (b.group, b.name)` on Python tuples. */
  predicate KeyLe(a: TestData, b: TestData) {
    StrLt(a.group, b.group) || (a.group == b.group && StrLe(a.name, b.name))
  }

  lemma KeyLeTotal(a: TestData, b: TestData)
    ensures KeyLe(a, b) || KeyLe(b, a)
  {
    StrLeTotal(a.group, b.group);
    StrLeTotal(a.name, b.name);
  }

  lemma KeyLeTransitive(a: TestData, b: TestData, c: TestData)
    requires KeyLe(a, b) && KeyLe(b, c)
    ensures KeyLe(a, c)
  {
    if StrLt(a.group, b.group) && StrLt(b.group, c.group) {
      StrLtLeTransitive(a.group, b.group, c.group);
    } else if a.group == b.group == c.group {
      StrLeTransitive(a.name, b.name, c.name);
    }
  }

  /** Records in ascending order of group, then name. */
  predicate SortedByKey(s: seq<TestData>) {
    forall i, j :: 0 <= i < j < |s| ==> KeyLe(s[i], s[j])
  }

  /** `x` put before the first record of `s` it does not come after. */
  function Insert(x: TestData, s: seq<TestData>): (r: seq<TestData>)
    ensures multiset(r) == multiset(s) + multiset{x}
  {
    if s == [] then [x]
    else if KeyLe(x, s[0]) then [x] + s
    else
      assert s == [s[0]] + s[1..];
      [s[0]] + Insert(x, s[1..])
  }

  /** Every record of `Insert(x, s)` is `x` or one of `s`. */
  lemma InsertFrom(x: TestData, s: seq<TestData>, j: nat)
    requires j < |Insert(x, s)|
    ensures Insert(x, s)[j] == x || exists m :: 0 <= m < |s| && s[m] == Insert(x, s)[j]
  {
    var r := Insert(x, s);
    assert r[j] in multiset(r);
    if r[j] != x {
      assert r[j] in multiset(s);
    }
  }

  /** Putting a record in front of a sorted sequence whose records all come
      after it keeps it sorted. */
  lemma ConsSorted(y: TestData, s: seq<TestData>)
    requires SortedByKey(s)
    requires forall j :: 0 <= j < |s| ==> KeyLe(y, s[j])
    ensures SortedByKey([y] + s)
  {
    var r := [y] + s;
    forall i, j | 0 <= i < j < |r|
      ensures KeyLe(r[i], r[j])
    {
      assert r[j] == s[j - 1];
      if i > 0 {
        assert r[i] == s[i - 1];
      }
    }
  }

  lemma {:induction false} InsertSorted(x: TestData, s: seq<TestData>)
    requires SortedByKey(s)
    ensures SortedByKey(Insert(x, s))
  {
    if s == [] {
    } else if KeyLe(x, s[0]) {
      forall j | 0 <= j < |s|
        ensures KeyLe(x, s[j])
      {
        if j > 0 {
          KeyLeTransitive(x, s[0], s[j]);
        }
      }
      ConsSorted(x, s);
    } else {
      var rest := Insert(x, s[1..]);
      InsertSorted(x, s[1..]);
      KeyLeTotal(x, s[0]);
      forall j | 0 <= j < |rest|
        ensures KeyLe(s[0], rest[j])
      {
        InsertFrom(x, s[1..], j);
        if rest[j] != x {
          var m :| 0 <= m < |s[1..]| && s[1..][m] == rest[j];
          assert s[m + 1] == rest[j];
        }
      }
      ConsSorted(s[0], rest);
    }
  }

  /** The insertion sort of the records: ascending by key, the same records.
      A record is inserted before the records with an equal key that followed
      it, as Python's stable sort orders them (stability not proved). */
  function SortByKey(s: seq<TestData>): (r: seq<TestData>)
    ensures SortedByKey(r)
    ensures multiset(r) == multiset(s)
    ensures |r| == |s|
  {
    if s == [] then []
    else
      var rest := SortByKey(s[1..]);
      InsertSorted(s[0], rest);
      assert s == [s[0]] + s[1..];
      Insert(s[0], rest)
  }

  /** The per-test results of a batch over `ts`, in order. */
  function RunResults(ts: seq<TestData>, sim: string -> Outcome): (rs: seq<Result<TestData>>)
    ensures |rs| == |ts|
    ensures forall i :: 0 <= i < |ts| ==> rs[i] == RunTest(ts[i], sim)
  {
    if ts == [] then [] else [RunTest(ts[0], sim)] + RunResults(ts[1..], sim)
  }

  /** What launch returns: the environment error, or the records in sorted
      order each updated by its run, or the error of the first run whose
      output is not understood. */
  function LaunchResult(env: map<string, string>, loaded: seq<TestData>, sim: string -> Outcome)
    : Result<seq<TestData>>
  {
    var _ :- CheckEnvs(env);
    FirstErrorOrAll(RunResults(SortByKey(loaded), sim))
  }

  /** The batch fails only on output it does not understand. */
  lemma {:induction false} BatchErrorIsUnknown(ts: seq<TestData>, sim: string -> Outcome)
    requires FirstErrorOrAll(RunResults(ts, sim)).Err?
    ensures FirstErrorOrAll(RunResults(ts, sim)).error == UnknownTestResult
  {
    FirstErrorOrAllErr(RunResults(ts, sim));
  }

  /** Launch succeeds exactly when both variables are set and every run's
      output is understood; it then returns the loaded records, sorted, each
      with its run outcome and its verdict and otherwise unchanged. */
  lemma LaunchMeaning(env: map<string, string>, loaded: seq<TestData>, sim: string -> Outcome)
    ensures LaunchResult(env, loaded, sim).Ok? <==>
              CheckEnvs(env).Ok? && forall t :: t in loaded ==> ClassifyRun(sim(t.name)).Ok?
    ensures CheckEnvs(env).Err? ==> LaunchResult(env, loaded, sim) == Err(CheckEnvs(env).error)
    ensures CheckEnvs(env).Ok? && LaunchResult(env, loaded, sim).Err? ==>
              LaunchResult(env, loaded, sim).error == UnknownTestResult
    ensures LaunchResult(env, loaded, sim).Ok? ==>
              var out := LaunchResult(env, loaded, sim).value;
              |out| == |loaded| && SortedByKey(out) &&
              forall i :: 0 <= i < |out| ==> RunTest(SortByKey(loaded)[i], sim) == Ok(out[i])
  {
    var sorted := SortByKey(loaded);
    var rs := RunResults(sorted, sim);
    FirstErrorOrAllOk(rs);
    assert (forall t :: t in loaded ==> ClassifyRun(sim(t.name)).Ok?) <==>
           (forall i :: 0 <= i < |rs| ==> rs[i].Ok?) by {
      assert forall t :: t in loaded <==> t in sorted by {
        forall t
          ensures t in loaded <==> t in sorted
        {
          assert t in multiset(loaded) <==> t in multiset(sorted);
        }
      }
    }
    if CheckEnvs(env).Ok? {
      if FirstErrorOrAll(rs).Ok? {
        var out := FirstErrorOrAll(rs).value;
        FirstErrorOrAllValues(rs);
        forall i, j | 0 <= i < j < |out|
          ensures KeyLe(out[i], out[j])
        {
          assert KeyLe(sorted[i], sorted[j]);
        }
      } else {
        BatchErrorIsUnknown(sorted, sim);
      }
    }
  }

  /** The loop of launch over the sorted records, updating each in place:
      first its run outcome, then its verdict. It stops at the first run whose
      output it does not understand, leaving that record and the ones after
      it as they were. */
  method RunBatch(a: array<TestData>, sim: string -> Outcome) returns (r: Result<()>)
    modifies a
    ensures r.Ok? <==> forall i :: 0 <= i < a.Length ==> RunTest(old(a[i]), sim).Ok?
    ensures r.Ok? ==> forall i :: 0 <= i < a.Length ==> RunTest(old(a[i]), sim) == Ok(a[i])
    ensures r.Err? ==> r.error == UnknownTestResult
    ensures r.Err? ==>
              exists k :: 0 <= k < a.Length && RunTest(old(a[k]), sim).Err? &&
                (forall i :: 0 <= i < k ==> RunTest(old(a[i]), sim) == Ok(a[i])) &&
                (forall i :: k <= i < a.Length ==> a[i] == old(a[i]))
  {
    var i := 0;
    while i < a.Length
      invariant 0 <= i <= a.Length
      invariant forall j :: 0 <= j < i ==> RunTest(old(a[j]), sim) == Ok(a[j])
      invariant forall j :: i <= j < a.Length ==> a[j] == old(a[j])
    {
      var runResult := ClassifyRun(sim(a[i].name));
      if runResult.Err? {
        return Err(runResult.error);
      }
      a[i] := a[i].(run := runResult.value);
      a[i] := a[i].(result := DefineTestRes(a[i].expected, a[i].run));
      i := i + 1;
    }
    return Ok(());
  }

  /** `Runner.launch`, over the environment, the loaded records and the
      simulator. */
  method Launch(env: map<string, string>, loaded: seq<TestData>, sim: string -> Outcome)
    returns (r: Result<seq<TestData>>)
    ensures r == LaunchResult(env, loaded, sim)
  {
    var envCheck := CheckEnvs(env);
    if envCheck.Err? {
      return Err(envCheck.error);
    }
    var testStructs := SortByKey(loaded);
    var a := new TestData[|testStructs|](i requires 0 <= i < |testStructs| => testStructs[i]);
    assert a[..] == testStructs;
    ghost var rs := RunResults(testStructs, sim);
    var batch := RunBatch(a, sim);
    if batch.Err? {
      FirstErrorOrAllOk(rs);
      BatchErrorIsUnknown(testStructs, sim);
      return Err(batch.error);
    }
    FirstErrorOrAllOfValues(rs, a[..]);
    r := Ok(a[..]);
  }
}
