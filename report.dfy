/** The tally of `Runner.report` (suite/runner.py): for each group of tests,
    how many there are and how many got each verdict. */
module Report {
  import opened Exceptions
  import opened Data

  /** The counters of one group: its size and one slot per verdict. */
  datatype Tally = Tally(total: nat, expSuccess: nat, expFailure: nat, failure: nat, error: nat)

  /** `default_val`: every counter at zero, copied afresh for each new group. */
  const DefaultTally: Tally := Tally(0, 0, 0, 0, 0)

  /** The counter slot of a verdict; INIT has none. */
  function Slot(t: Tally, v: TestResult): nat
    requires v != TestResult.Init
  {
    match v
    case ExpSuccess => t.expSuccess
    case ExpFailure => t.expFailure
    case Failure => t.failure
    case Error => t.error
  }

  /** `counter[test_result] += 1; counter["total"] += 1`: a KeyError for a
      verdict without a slot. */
  function Count(t: Tally, v: TestResult): (r: Result<Tally>)
    ensures r.Err? <==> v == TestResult.Init
    ensures r.Err? ==> r.error == KeyError
    ensures r.Ok? ==> r.value.total == t.total + 1
    ensures r.Ok? ==> forall w :: w != TestResult.Init ==>
              Slot(r.value, w) == Slot(t, w) + (if w == v then 1 else 0)
  {
    match v
    case Init => Err(KeyError)
    case ExpSuccess => Ok(t.(expSuccess := t.expSuccess + 1, total := t.total + 1))
    case ExpFailure => Ok(t.(expFailure := t.expFailure + 1, total := t.total + 1))
    case Failure => Ok(t.(failure := t.failure + 1, total := t.total + 1))
    case Error => Ok(t.(error := t.error + 1, total := t.total + 1))
  }

  /** The tests of a group that passed: the expected successes and failures. */
  function Passed(t: Tally): nat {
    t.expSuccess + t.expFailure
  }

  // The tally a report should hold, stated on the records directly.

  /** The number of records of group `g`. */
  function GroupSize(records: seq<TestData>, g: string): nat {
    if records == [] then 0
    else
      var last := records[|records| - 1];
      GroupSize(records[..|records| - 1], g) + (if last.group == g then 1 else 0)
  }

  /** The number of records of group `g` with verdict `v`. */
  function VerdictCount(records: seq<TestData>, g: string, v: TestResult): nat {
    if records == [] then 0
    else
      var last := records[|records| - 1];
      VerdictCount(records[..|records| - 1], g, v) + (if last.group == g && last.result == v then 1 else 0)
  }

  /** The counters group `g` should end with. */
  function TallyOf(records: seq<TestData>, g: string): Tally {
    Tally(GroupSize(records, g),
          VerdictCount(records, g, TestResult.ExpSuccess), VerdictCount(records, g, TestResult.ExpFailure),
          VerdictCount(records, g, TestResult.Failure), VerdictCount(records, g, TestResult.Error))
  }

  /** The groups present among the records. */
  function GroupsOf(records: seq<TestData>): set<string> {
    set i | 0 <= i < |records| :: records[i].group
  }

  /** Some record has not been judged. */
  predicate HasUnjudged(records: seq<TestData>) {
    exists i :: 0 <= i < |records| && records[i].result == TestResult.Init
  }

  /** The counters of every group present. */
  function ReportMap(records: seq<TestData>): map<string, Tally> {
    map g | g in GroupsOf(records) :: TallyOf(records, g)
  }

  /** What report returns for the records of a run. */
  function ReportResult(records: seq<TestData>): Result<map<string, Tally>> {
    if HasUnjudged(records) then Err(KeyError) else Ok(ReportMap(records))
  }

  /** One more record at the end changes the counters of its own group only,
      as Count does. */
  lemma TallyOfStep(records: seq<TestData>, g: string)
    requires records != []
    requires records[|records| - 1].result != TestResult.Init
    ensures var last := records[|records| - 1];
            var before := TallyOf(records[..|records| - 1], g);
            TallyOf(records, g) == if last.group == g then Count(before, last.result).value else before
  {
  }

  /** A group absent from the records has all-zero counters. */
  lemma {:induction false} TallyOfAbsent(records: seq<TestData>, g: string)
    requires g !in GroupsOf(records)
    ensures TallyOf(records, g) == DefaultTally
  {
    if records != [] {
      var init := records[..|records| - 1];
      assert GroupsOf(init) <= GroupsOf(records) by {
        forall x | x in GroupsOf(init)
          ensures x in GroupsOf(records)
        {
          var i :| 0 <= i < |init| && init[i].group == x;
          assert records[i] == init[i];
        }
      }
      assert records[|records| - 1].group in GroupsOf(records);
      TallyOfAbsent(init, g);
    }
  }

  /** The groups of the records with one more at the end. */
  lemma GroupsOfStep(records: seq<TestData>)
    requires records != []
    ensures GroupsOf(records) == GroupsOf(records[..|records| - 1]) + {records[|records| - 1].group}
  {
    var init := records[..|records| - 1];
    forall x | x in GroupsOf(records)
      ensures x in GroupsOf(init) + {records[|records| - 1].group}
    {
      var i :| 0 <= i < |records| && records[i].group == x;
      if i < |init| {
        assert init[i] == records[i];
      }
    }
    forall x | x in GroupsOf(init)
      ensures x in GroupsOf(records)
    {
      var i :| 0 <= i < |init| && init[i].group == x;
      assert records[i] == init[i];
    }
  }

  /** The counter map after one more record, from the one before it. */
  lemma ReportMapStep(records: seq<TestData>, counter: map<string, Tally>)
    requires records != []
    requires records[|records| - 1].result != TestResult.Init
    requires counter == ReportMap(records[..|records| - 1])
    ensures var last := records[|records| - 1];
            var c := if last.group in counter then counter else counter[last.group := DefaultTally];
            c[last.group := Count(c[last.group], last.result).value] == ReportMap(records)
  {
    var init := records[..|records| - 1];
    var last := records[|records| - 1];
    var c := if last.group in counter then counter else counter[last.group := DefaultTally];
    var updated := c[last.group := Count(c[last.group], last.result).value];
    var m := ReportMap(records);
    GroupsOfStep(records);
    if last.group !in counter {
      TallyOfAbsent(init, last.group);
    }
    forall g | g in m
      ensures updated[g] == m[g]
    {
      TallyOfStep(records, g);
    }
    assert updated.Keys == m.Keys;
  }

  /** `Runner.report` over the records of a run: one fresh set of counters
      per group met, updated record by record. */
  method Report(records: seq<TestData>) returns (r: Result<map<string, Tally>>)
    ensures r == ReportResult(records)
  {
    var suiteCounter: map<string, Tally> := map[];
    var i := 0;
    while i < |records|
      invariant 0 <= i <= |records|
      invariant suiteCounter == ReportMap(records[..i])
      invariant !HasUnjudged(records[..i])
    {
      var group := records[i].group;
      var testResult := records[i].result;
      ghost var before := suiteCounter;
      if group !in suiteCounter {
        suiteCounter := suiteCounter[group := DefaultTally];
      }
      var counted := Count(suiteCounter[group], testResult);
      if counted.Err? {
        assert HasUnjudged(records);
        return Err(counted.error);
      }
      suiteCounter := suiteCounter[group := counted.value];
      assert records[..i + 1][..i] == records[..i];
      ReportMapStep(records[..i + 1], before);
      ghost var done := records[..i + 1];
      assert !HasUnjudged(done) by {
        forall j | 0 <= j < |done|
          ensures done[j].result != TestResult.Init
        {
          if j < i {
            assert done[j] == records[..i][j];
          }
        }
      }
      i := i + 1;
    }
    assert records[..i] == records;
    r := Ok(suiteCounter);
  }

  // What the tally promises.

  /** Without unjudged records, a group's size is the sum of its four verdict
      counts. */
  lemma {:induction false} GroupSizeIsSumOfVerdicts(records: seq<TestData>, g: string)
    requires !HasUnjudged(records)
    ensures GroupSize(records, g) ==
              VerdictCount(records, g, TestResult.ExpSuccess) + VerdictCount(records, g, TestResult.ExpFailure) +
              VerdictCount(records, g, TestResult.Failure) + VerdictCount(records, g, TestResult.Error)
  {
    if records != [] {
      var init := records[..|records| - 1];
      assert !HasUnjudged(init) by {
        forall j | 0 <= j < |init|
          ensures init[j].result != TestResult.Init
        {
          assert init[j] == records[j];
        }
      }
      assert records[|records| - 1].result != TestResult.Init;
      GroupSizeIsSumOfVerdicts(init, g);
    }
  }

  /** A group present among the records has at least one. */
  lemma {:induction false} GroupSizePositive(records: seq<TestData>, g: string)
    requires g in GroupsOf(records)
    ensures GroupSize(records, g) > 0
  {
    var init := records[..|records| - 1];
    if records[|records| - 1].group != g {
      GroupsOfStep(records);
      GroupSizePositive(init, g);
    }
  }

  /** Report fails exactly when some record has not been judged, and then
      with a KeyError. Otherwise its keys are the groups present, and each
      group's counters hold its size, equal to the sum of its four verdict
      counts, of which the passed ones are at most the size. */
  lemma ReportMeaning(records: seq<TestData>)
    ensures ReportResult(records).Err? <==> HasUnjudged(records)
    ensures ReportResult(records).Err? ==> ReportResult(records).error == KeyError
    ensures ReportResult(records).Ok? ==> ReportResult(records).value.Keys == GroupsOf(records)
    ensures ReportResult(records).Ok? ==> forall g :: g in ReportResult(records).value ==>
              var t := ReportResult(records).value[g];
              t.total == GroupSize(records, g) > 0 &&
              t.total == t.expSuccess + t.expFailure + t.failure + t.error &&
              Passed(t) <= t.total
  {
    if !HasUnjudged(records) {
      forall g | g in GroupsOf(records)
        ensures GroupSize(records, g) > 0
        ensures GroupSize(records, g) ==
                  VerdictCount(records, g, TestResult.ExpSuccess) + VerdictCount(records, g, TestResult.ExpFailure) +
                  VerdictCount(records, g, TestResult.Failure) + VerdictCount(records, g, TestResult.Error)
      {
        GroupSizePositive(records, g);
        GroupSizeIsSumOfVerdicts(records, g);
      }
    }
  }

  /** An empty run reports no group. */
  lemma ReportEmpty()
    ensures ReportResult([]) == Ok(map[])
  {
    assert GroupsOf([]) == {};
  }

  // The sum of the group totals.

  /** The sum of the values of `m` at the keys. */
  ghost function SumValues(m: map<string, nat>, keys: set<string>): nat
    requires keys <= m.Keys
  {
    if keys == {} then 0
    else
      var k :| k in keys;
      m[k] + SumValues(m, keys - {k})
  }

  /** The sum does not depend on which key is taken first. */
  lemma {:induction false} SumValuesRemove(m: map<string, nat>, keys: set<string>, k: string)
    requires keys <= m.Keys && k in keys
    ensures SumValues(m, keys) == m[k] + SumValues(m, keys - {k})
    decreases |keys|
  {
    var j :| j in keys && SumValues(m, keys) == m[j] + SumValues(m, keys - {j});
    if j != k {
      SumValuesRemove(m, keys - {j}, k);
      SumValuesRemove(m, keys - {k}, j);
      assert keys - {j} - {k} == keys - {k} - {j};
    }
  }

  /** Adding one to a single key's value adds one to the sum if that key is
      summed. */
  lemma {:induction false} SumValuesBump(f: map<string, nat>, h: map<string, nat>, keys: set<string>, x: string)
    requires keys <= f.Keys && keys <= h.Keys
    requires forall k :: k in keys ==> h[k] == f[k] + (if k == x then 1 else 0)
    ensures SumValues(h, keys) == SumValues(f, keys) + (if x in keys then 1 else 0)
    decreases |keys|
  {
    if keys != {} {
      var k :| k in keys;
      SumValuesRemove(f, keys, k);
      SumValuesRemove(h, keys, k);
      SumValuesBump(f, h, keys - {k}, x);
    }
  }

  /** The size of each group present. */
  function Sizes(records: seq<TestData>): map<string, nat> {
    map g | g in GroupsOf(records) :: GroupSize(records, g)
  }

  /** The `total` counter of each group of a report. */
  function Totals(m: map<string, Tally>): map<string, nat> {
    map g | g in m :: m[g].total
  }

  /** The group sizes add up to the number of records. */
  lemma {:induction false} GroupSizesSum(records: seq<TestData>)
    ensures SumValues(Sizes(records), GroupsOf(records)) == |records|
  {
    if records != [] {
      var init := records[..|records| - 1];
      var x := records[|records| - 1].group;
      GroupsOfStep(records);
      GroupSizesSum(init);
      SumValuesBump(Sizes(init), Sizes(records), GroupsOf(init), x);
      if x !in GroupsOf(init) {
        TallyOfAbsent(init, x);
        SumValuesRemove(Sizes(records), GroupsOf(records), x);
        assert GroupsOf(records) - {x} == GroupsOf(init);
      } else {
        assert GroupsOf(records) == GroupsOf(init);
      }
    }
  }

  /** The totals of a report add up to the number of records. */
  lemma ReportTotalsSum(records: seq<TestData>)
    requires ReportResult(records).Ok?
    ensures var m := ReportResult(records).value;
            SumValues(Totals(m), m.Keys) == |records|
  {
    var m := ReportResult(records).value;
    GroupSizesSum(records);
    assert m.Keys == GroupsOf(records);
    forall g | g in m
      ensures Totals(m)[g] == Sizes(records)[g]
    {
      assert m[g] == TallyOf(records, g);
    }
    assert Totals(m) == Sizes(records);
  }
}
