/** The error kinds the harness raises, and the wrappers that carry them.
    The first four are the exception classes of suite/exceptions.py (and the
    MissingRunResultsFile that runner.py imports and raises, though
    suite/exceptions.py does not define it); the last three are the
    Python built-in exceptions that the modelled code can raise. */
module Exceptions {

  datatype Option<+T> = None | Some(value: T)

  datatype Exception =
    | ExpectedTestResultNotFound(file: string)  // no `# Should:` line in `file`
    | UnknownTestResult                         // annotation word or simulator output not recognised
    | EnvironmentException(variable: string)    // required environment variable missing
    | MissingRunResultsFile                     // no run-results file to report on
    | IndexError                                // `split(...)[1]` on a string without the separator
    | ValueError                                // `split("")`: empty separator
    | KeyError                                  // dictionary lookup of a missing key

  /** A value, or the exception that interrupts the computation. */
  datatype Result<+T> = Ok(value: T) | Err(error: Exception) {
    predicate IsFailure() {
      Err?
    }

    function PropagateFailure<U>(): Result<U>
      requires Err?
    {
      Err(error)
    }

    function Extract(): T
      requires Ok?
    {
      value
    }
  }

  // Running a sequence of steps that may each fail, stopping at the first failure.

  /** All the values of `rs`, in order, or the first error among them. */
  function FirstErrorOrAll<T>(rs: seq<Result<T>>): (r: Result<seq<T>>)
    ensures r.Ok? ==> |r.value| == |rs|
  {
    if rs == [] then Ok([])
    else
      var d :- rs[0];
      var rest :- FirstErrorOrAll(rs[1..]);
      Ok([d] + rest)
  }

  /** The results gathered so far, put before what the remaining ones give. */
  function Prepend<T>(done: seq<T>, r: Result<seq<T>>): Result<seq<T>> {
    if r.Ok? then Ok(done + r.value) else r
  }

  lemma PrependTwice<T>(a: seq<T>, b: seq<T>, r: Result<seq<T>>)
    ensures Prepend(a, Prepend(b, r)) == Prepend(a + b, r)
  {
    if r.Ok? {
      assert a + (b + r.value) == (a + b) + r.value;
    }
  }

  /** The combination succeeds exactly when every result does. */
  lemma {:induction false} FirstErrorOrAllOk<T>(rs: seq<Result<T>>)
    ensures FirstErrorOrAll(rs).Ok? <==> forall i :: 0 <= i < |rs| ==> rs[i].Ok?
  {
    if rs != [] {
      FirstErrorOrAllOk(rs[1..]);
      assert forall i :: 1 <= i < |rs| ==> rs[1..][i - 1] == rs[i];
    }
  }

  /** A successful combination holds, at index i, the value of the i-th result. */
  lemma {:induction false} FirstErrorOrAllValues<T>(rs: seq<Result<T>>)
    requires FirstErrorOrAll(rs).Ok?
    ensures forall i :: 0 <= i < |rs| ==> rs[i] == Ok(FirstErrorOrAll(rs).value[i])
  {
    if rs != [] {
      FirstErrorOrAllValues(rs[1..]);
      forall i | 1 <= i < |rs|
        ensures rs[i] == Ok(FirstErrorOrAll(rs).value[i])
      {
        assert rs[1..][i - 1] == rs[i];
      }
    }
  }

  /** A failed combination carries the error of the first failing result. */
  lemma {:induction false} FirstErrorOrAllErr<T>(rs: seq<Result<T>>)
    requires FirstErrorOrAll(rs).Err?
    ensures exists k :: 0 <= k < |rs| && rs[k] == Err(FirstErrorOrAll(rs).error) &&
              forall i :: 0 <= i < k ==> rs[i].Ok?
  {
    if rs[0].Ok? {
      FirstErrorOrAllErr(rs[1..]);
      var k :| 0 <= k < |rs| - 1 && rs[1..][k] == Err(FirstErrorOrAll(rs[1..]).error) &&
               forall i :: 0 <= i < k ==> rs[1..][i].Ok?;
      forall i | 0 <= i < k + 1
        ensures rs[i].Ok?
      {
        if i > 0 {
          assert rs[i] == rs[1..][i - 1];
        }
      }
      assert rs[k + 1] == Err(FirstErrorOrAll(rs).error);
    } else {
      assert rs[0] == Err(FirstErrorOrAll(rs).error);
    }
  }

  /** A loop over `rs` that keeps the values before `i` in `done` ends with
      the error at `i`, if there is one there. */
  lemma FirstErrorOrAllStopsAt<T>(rs: seq<Result<T>>, done: seq<T>, i: nat)
    requires i < |rs| && rs[i].Err?
    requires FirstErrorOrAll(rs) == Prepend(done, FirstErrorOrAll(rs[i..]))
    ensures FirstErrorOrAll(rs) == Err(rs[i].error)
  {
    assert rs[i..][0] == rs[i];
  }

  /** ... and otherwise keeps the value at `i` and moves on. */
  lemma FirstErrorOrAllStep<T>(rs: seq<Result<T>>, done: seq<T>, i: nat)
    requires i < |rs| && rs[i].Ok?
    requires FirstErrorOrAll(rs) == Prepend(done, FirstErrorOrAll(rs[i..]))
    ensures FirstErrorOrAll(rs) == Prepend(done + [rs[i].value], FirstErrorOrAll(rs[i + 1..]))
  {
    assert rs[i..][0] == rs[i];
    assert rs[i..][1..] == rs[i + 1..];
    PrependTwice(done, [rs[i].value], FirstErrorOrAll(rs[i + 1..]));
  }

  /** ... and, past the last result, holds all the values. */
  lemma FirstErrorOrAllDone<T>(rs: seq<Result<T>>, done: seq<T>)
    requires FirstErrorOrAll(rs) == Prepend(done, FirstErrorOrAll(rs[|rs|..]))
    ensures FirstErrorOrAll(rs) == Ok(done)
  {
    assert rs[|rs|..] == [];
    assert done + [] == done;
  }

  /** ... having started from nothing. */
  lemma FirstErrorOrAllStart<T>(rs: seq<Result<T>>)
    ensures FirstErrorOrAll(rs) == Prepend([], FirstErrorOrAll(rs[0..]))
  {
    assert rs[0..] == rs;
    if FirstErrorOrAll(rs).Ok? {
      assert [] + FirstErrorOrAll(rs).value == FirstErrorOrAll(rs).value;
    }
  }

  /** Results that are all successful combine into their values. */
  lemma {:induction false} FirstErrorOrAllOfValues<T>(rs: seq<Result<T>>, vs: seq<T>)
    requires |vs| == |rs| && forall i :: 0 <= i < |rs| ==> rs[i] == Ok(vs[i])
    ensures FirstErrorOrAll(rs) == Ok(vs)
  {
    if rs != [] {
      FirstErrorOrAllOfValues(rs[1..], vs[1..]);
      assert vs == [vs[0]] + vs[1..];
    }
  }

  // The import of suite/runner.py lines 11-16.

  /** The exception classes suite/exceptions.py defines. */
  const ExceptionsDefined: set<string> :=
    {"ExpectedTestResultNotFound", "UnknownTestResult", "EnvironmentException"}

  /** The names suite/runner.py imports from suite.exceptions. */
  const RunnerImports: seq<string> :=
    ["EnvironmentException", "ExpectedTestResultNotFound", "MissingRunResultsFile", "UnknownTestResult"]

  /** Every imported name is defined by the imported module. */
  predicate ImportsResolve(defined: set<string>, imports: seq<string>) {
    forall i :: 0 <= i < |imports| ==> imports[i] in defined
  }

  /** As written, the import fails: MissingRunResultsFile is not defined,
      so loading suite/runner.py raises ImportError. */
  lemma ImportFailsAsWritten()
    ensures !ImportsResolve(ExceptionsDefined, RunnerImports)
    ensures RunnerImports[2] == "MissingRunResultsFile" && RunnerImports[2] !in ExceptionsDefined
  {
    assert RunnerImports[2] !in ExceptionsDefined;
  }

  /** The exception classes with MissingRunResultsFile added, as the
      `Exception` datatype above has it. */
  const ExceptionsIntended: set<string> := ExceptionsDefined + {"MissingRunResultsFile"}

  /** With the missing class defined, every imported name resolves. */
  lemma ImportResolvesIntended()
    ensures ImportsResolve(ExceptionsIntended, RunnerImports)
  {
    assert forall i :: 0 <= i < |RunnerImports| ==> RunnerImports[i] in ExceptionsIntended;
  }
}
