/** `Runner.collect` (suite/runner.py): choose the test directories of a group,
    read the expected outcome from each test source's `# Should: <word>`
    annotation, derive the test's name and group from its path, and gather one
    record per test source. */
module Collect {
  import opened Exceptions
  import opened Data
  import opened Text

  // The test directories, in the order runner.py lists them.
  const BaseMemAccessTests: string := "tests/mem-access/base/"
  const DupMemAccessTests: string := "tests/mem-access/duplicated/"
  const ShadowStackTests: string := "tests/mem-access/shadow-stack/"
  const DomainChangeTests: string := "tests/domain-change/"
  const CsrTests: string := "tests/csr/"

  const AllTests: seq<string> :=
    [BaseMemAccessTests, DupMemAccessTests, ShadowStackTests, DomainChangeTests, CsrTests]

  /** The directories of `dirs` whose path contains `group`, in order. */
  function FilterDirs(dirs: seq<string>, group: string): (r: seq<string>)
    ensures |r| <= |dirs|
    ensures forall d :: d in r <==> d in dirs && Contains(d, group)
  {
    if dirs == [] then []
    else
      var rest := FilterDirs(dirs[1..], group);
      assert dirs == [dirs[0]] + dirs[1..];
      if Contains(dirs[0], group) then [dirs[0]] + rest else rest
  }

  /** The filter works directory by directory: filtering a concatenation
      concatenates the filtered parts, so the kept directories stay in the
      order they are listed. */
  lemma {:induction false} FilterDirsAppend(a: seq<string>, b: seq<string>, group: string)
    ensures FilterDirs(a + b, group) == FilterDirs(a, group) + FilterDirs(b, group)
  {
    if a == [] {
      assert a + b == b;
    } else {
      assert (a + b)[0] == a[0];
      assert (a + b)[1..] == a[1..] + b;
      FilterDirsAppend(a[1..], b, group);
    }
  }

  /** A directory alone is kept exactly when its path contains the group. */
  function KeepDir(dir: string, group: string): seq<string> {
    if Contains(dir, group) then [dir] else []
  }

  /** `[path for path in ALL_TESTS if group in path]`. */
  function SelectDirs(group: string): (r: seq<string>)
    ensures forall d :: d in r <==> d in AllTests && Contains(d, group)
  {
    FilterDirs(AllTests, group)
  }

  /** When every directory matches, all of them are kept, in order. */
  lemma {:induction false} FilterDirsAll(dirs: seq<string>, group: string)
    requires forall k :: 0 <= k < |dirs| ==> Contains(dirs[k], group)
    ensures FilterDirs(dirs, group) == dirs
  {
    if dirs != [] {
      FilterDirsAll(dirs[1..], group);
      assert dirs == [dirs[0]] + dirs[1..];
    }
  }

  /** When exactly the directory at `m` matches, only that one is kept. */
  lemma {:induction false} FilterDirsSingle(dirs: seq<string>, group: string, m: nat)
    requires m < |dirs| && Contains(dirs[m], group)
    requires forall k :: 0 <= k < |dirs| && k != m ==> !Contains(dirs[k], group)
    ensures FilterDirs(dirs, group) == [dirs[m]]
  {
    if m == 0 {
      FilterDirsNone(dirs[1..], group);
    } else {
      FilterDirsSingle(dirs[1..], group, m - 1);
    }
  }

  /** When no directory matches, none is kept. */
  lemma {:induction false} FilterDirsNone(dirs: seq<string>, group: string)
    requires forall k :: 0 <= k < |dirs| ==> !Contains(dirs[k], group)
    ensures FilterDirs(dirs, group) == []
  {
    if dirs != [] {
      FilterDirsNone(dirs[1..], group);
    }
  }

  /** The selection keeps the directories in the order runner.py lists them,
      each one exactly when its path contains the group. */
  lemma SelectDirsInOrder(group: string)
    ensures SelectDirs(group) ==
              KeepDir(BaseMemAccessTests, group) + (KeepDir(DupMemAccessTests, group) +
              (KeepDir(ShadowStackTests, group) + (KeepDir(DomainChangeTests, group) + KeepDir(CsrTests, group))))
  {
    FilterFive(BaseMemAccessTests, DupMemAccessTests, ShadowStackTests, DomainChangeTests, CsrTests, group);
  }

  /** Five directories are filtered one by one, in order. */
  lemma FilterFive(a: string, b: string, c: string, d: string, e: string, group: string)
    ensures FilterDirs([a, b, c, d, e], group) ==
              KeepDir(a, group) + (KeepDir(b, group) + (KeepDir(c, group) + (KeepDir(d, group) + KeepDir(e, group))))
  {
    var ka, kb, kc, kd, ke := KeepDir(a, group), KeepDir(b, group), KeepDir(c, group), KeepDir(d, group), KeepDir(e, group);
    assert [e] == [e] + [];
    assert [d, e] == [d] + [e];
    assert [c, d, e] == [c] + [d, e];
    assert [b, c, d, e] == [b] + [c, d, e];
    assert [a, b, c, d, e] == [a] + [b, c, d, e];
    FilterCons(e, [], group);
    assert FilterDirs([e], group) == ke;
    FilterCons(d, [e], group);
    FilterCons(c, [d, e], group);
    FilterCons(b, [c, d, e], group);
    FilterCons(a, [b, c, d, e], group);
  }

  /** Filtering a directory in front of others keeps it first when it matches. */
  lemma FilterCons(x: string, dirs: seq<string>, group: string)
    ensures FilterDirs([x] + dirs, group) == KeepDir(x, group) + FilterDirs(dirs, group)
  {
    assert ([x] + dirs)[1..] == dirs;
  }

  /** The default group "tests" selects every directory. */
  lemma SelectDirsDefault()
    ensures SelectDirs("tests") == AllTests
  {
    forall k | 0 <= k < |AllTests|
      ensures Contains(AllTests[k], "tests")
    {
      assert OccursAt(AllTests[k], "tests", 0);
    }
    FilterDirsAll(AllTests, "tests");
  }

  /** The group "domain" selects only the domain-change directory. */
  lemma SelectDirsDomain()
    ensures SelectDirs("domain") == [DomainChangeTests]
  {
    forall k | 0 <= k < |AllTests| && k != 3
      ensures !Contains(AllTests[k], "domain")
    {
      NotContainsMissingChar(AllTests[k], "domain", 'n');
    }
    assert OccursAt(DomainChangeTests, "domain", 6);
    FilterDirsSingle(AllTests, "domain", 3);
  }

  // The annotation regular expression `# Should:\s*(\w+)`.

  const ShouldPrefix: string := "# Should:"

  /** The end of the run of `\s` characters starting at `i`. */
  function SkipSpaces(s: string, i: nat): (j: nat)
    requires i <= |s|
    ensures i <= j <= |s|
    ensures forall k :: i <= k < j ==> IsSpace(s[k])
    ensures j < |s| ==> !IsSpace(s[j])
    decreases |s| - i
  {
    if i < |s| && IsSpace(s[i]) then SkipSpaces(s, i + 1) else i
  }

  /** The end of the run of `\w` characters starting at `i`. */
  function WordEnd(s: string, i: nat): (j: nat)
    requires i <= |s|
    ensures i <= j <= |s|
    ensures forall k :: i <= k < j ==> IsWordChar(s[k])
    ensures j < |s| ==> !IsWordChar(s[j])
    decreases |s| - i
  {
    if i < |s| && IsWordChar(s[i]) then WordEnd(s, i + 1) else i
  }

  /** The regular expression matched at exactly index `i` of `line`: its
      group 1, a maximal non-empty run of word characters after the prefix
      and any whitespace. (`\s*` cannot give back a character to `\w+`, the
      two classes being disjoint, so the greedy match is the only one.) */
  function MatchAt(line: string, i: nat): (r: Option<string>)
    ensures r.Some? ==> OccursAt(line, ShouldPrefix, i)
    ensures r.Some? ==> |r.value| > 0 && forall k :: 0 <= k < |r.value| ==> IsWordChar(r.value[k])
  {
    if OccursAt(line, ShouldPrefix, i) then
      var j := SkipSpaces(line, i + |ShouldPrefix|);
      var k := WordEnd(line, j);
      if j < k then Some(line[j..k]) else None
    else None
  }

  /** The least index from `i` to `n` at which `hit` has a value. */
  function FirstHit(hit: nat -> Option<string>, i: nat, n: nat): (r: Option<nat>)
    requires i <= n
    ensures r.None? <==> forall k :: i <= k <= n ==> hit(k).None?
    ensures r.Some? ==> i <= r.value <= n && hit(r.value).Some?
    decreases n - i
  {
    if hit(i).Some? then Some(i) else if i == n then None else FirstHit(hit, i + 1, n)
  }

  /** FirstHit finds the index before which `hit` has no value. */
  lemma {:induction false} FirstHitAt(hit: nat -> Option<string>, i: nat, n: nat, p: nat)
    requires i <= p <= n && hit(p).Some?
    requires forall k :: i <= k < p ==> hit(k).None?
    ensures FirstHit(hit, i, n) == Some(p)
    decreases p - i
  {
    if i < p {
      FirstHitAt(hit, i + 1, n, p);
    }
  }

  /** `re.search` from index `i`: the match at the leftmost index that has
      one (SearchFinds states which). */
  function Search(line: string, i: nat): (r: Option<string>)
    requires i <= |line|
    ensures r.None? <==> forall k :: i <= k <= |line| ==> MatchAt(line, k).None?
    ensures r.Some? ==> |r.value| > 0
  {
    var hit := (k: nat) => MatchAt(line, k);
    assert forall k: nat :: hit(k) == MatchAt(line, k);
    match FirstHit(hit, i, |line|)
    case Some(p) => MatchAt(line, p)
    case None => None
  }

  /** The annotation word on one line, as written (before lower-casing). */
  function LineAnnotation(line: string): (r: Option<string>)
    ensures r.None? <==> forall k :: 0 <= k <= |line| ==> MatchAt(line, k).None?
    ensures r.Some? ==> r.value != ""
  {
    Search(line, 0)
  }

  /** SkipSpaces stops at the first index from `i` on that is not `\s`. */
  lemma {:induction false} SkipSpacesTo(s: string, i: nat, j: nat)
    requires i <= j <= |s|
    requires forall k :: i <= k < j ==> IsSpace(s[k])
    requires j < |s| ==> !IsSpace(s[j])
    ensures SkipSpaces(s, i) == j
    decreases j - i
  {
    if i < j {
      SkipSpacesTo(s, i + 1, j);
    }
  }

  /** WordEnd stops at the first index from `i` on that is not `\w`. */
  lemma {:induction false} WordEndTo(s: string, i: nat, j: nat)
    requires i <= j <= |s|
    requires forall k :: i <= k < j ==> IsWordChar(s[k])
    requires j < |s| ==> !IsWordChar(s[j])
    ensures WordEnd(s, i) == j
    decreases j - i
  {
    if i < j {
      WordEndTo(s, i + 1, j);
    }
  }

  /** The prefix at `i`, whitespace up to `j` and a maximal word from `j` to
      `e` make a match at `i` whose group is that word. */
  lemma MatchAtWord(line: string, i: nat, j: nat, e: nat)
    requires OccursAt(line, ShouldPrefix, i)
    requires i + |ShouldPrefix| <= j < e <= |line|
    requires forall k :: i + |ShouldPrefix| <= k < j ==> IsSpace(line[k])
    requires forall k :: j <= k < e ==> IsWordChar(line[k])
    requires e < |line| ==> !IsWordChar(line[e])
    ensures MatchAt(line, i) == Some(line[j..e])
  {
    SpaceIsNotWord(line[j]);
    SkipSpacesTo(line, i + |ShouldPrefix|, j);
    WordEndTo(line, j, e);
  }

  /** The prefix, whitespace up to `j`, and then neither whitespace nor a word
      character (or the end of the line): no match, since `\w+` needs a word
      character there. */
  lemma MatchAtNoWord(line: string, i: nat, j: nat)
    requires OccursAt(line, ShouldPrefix, i)
    requires i + |ShouldPrefix| <= j <= |line|
    requires forall k :: i + |ShouldPrefix| <= k < j ==> IsSpace(line[k])
    requires j < |line| ==> !IsSpace(line[j]) && !IsWordChar(line[j])
    ensures MatchAt(line, i).None?
  {
    SkipSpacesTo(line, i + |ShouldPrefix|, j);
    WordEndTo(line, j, j);
  }

  /** No match can start at an index holding anything but `#`. */
  lemma NoMatchWithoutHash(line: string, p: nat)
    requires p <= |line|
    requires forall k :: 0 <= k < p ==> line[k] != '#'
    ensures forall k :: 0 <= k < p ==> MatchAt(line, k).None?
  {
    forall k | 0 <= k < p
      ensures MatchAt(line, k).None?
    {
      if k + |ShouldPrefix| <= |line| {
        assert line[k..k + |ShouldPrefix|][0] == line[k];
      }
    }
  }

  /** The leftmost match from `i` on is the one `re.search` returns. */
  lemma SearchFinds(line: string, i: nat, p: nat)
    requires i <= p <= |line| && MatchAt(line, p).Some?
    requires forall k :: i <= k < p ==> MatchAt(line, k).None?
    ensures Search(line, i) == MatchAt(line, p)
  {
    FirstHitAt((k: nat) => MatchAt(line, k), i, |line|, p);
  }

  /** A line made of anything without `#`, the prefix, whitespace, a word and
      then a non-word character (or the end) carries exactly that word. */
  lemma AnnotatedLine(lead: string, spaces: string, word: string, rest: string)
    requires '#' !in lead
    requires forall k :: 0 <= k < |spaces| ==> IsSpace(spaces[k])
    requires |word| > 0 && forall k :: 0 <= k < |word| ==> IsWordChar(word[k])
    requires rest == [] || !IsWordChar(rest[0])
    ensures LineAnnotation(lead + ShouldPrefix + spaces + word + rest) == Some(word)
  {
    var line := lead + ShouldPrefix + spaces + word + rest;
    var p := |lead|;
    var j := p + |ShouldPrefix| + |spaces|;
    var e := j + |word|;
    assert forall k :: 0 <= k < p ==> line[k] == lead[k];
    NoMatchWithoutHash(line, p);
    assert line[p..p + |ShouldPrefix|] == ShouldPrefix;
    assert forall k :: p + |ShouldPrefix| <= k < j ==> line[k] == spaces[k - p - |ShouldPrefix|];
    assert forall k :: j <= k < e ==> line[k] == word[k - j];
    assert e < |line| ==> line[e] == rest[0];
    assert line[j..e] == word;
    MatchAtWord(line, p, j, e);
    SearchFinds(line, 0, p);
  }

  /** The value `ann` gives on the first of `lines` it gives one on. */
  function FirstOf(ann: string -> Option<string>, lines: seq<string>): (r: Option<string>)
    ensures r.None? <==> forall k :: 0 <= k < |lines| ==> ann(lines[k]).None?
  {
    if lines == [] then None
    else
      match ann(lines[0])
      case Some(w) => Some(w)
      case None =>
        assert forall k :: 1 <= k < |lines| ==> lines[1..][k - 1] == lines[k];
        FirstOf(ann, lines[1..])
  }

  /** FirstOf stops at the line before which `ann` gives nothing. */
  lemma {:induction false} FirstOfAt(ann: string -> Option<string>, lines: seq<string>, k: nat)
    requires k < |lines| && ann(lines[k]).Some?
    requires forall j :: 0 <= j < k ==> ann(lines[j]).None?
    ensures FirstOf(ann, lines) == ann(lines[k])
  {
    if k > 0 {
      assert ann(lines[0]).None?;
      assert forall j :: 0 <= j < k - 1 ==> lines[1..][j] == lines[j + 1];
      FirstOfAt(ann, lines[1..], k - 1);
    }
  }

  /** FirstOf passes over a line on which `ann` gives nothing. */
  lemma FirstOfSkip(ann: string -> Option<string>, line: string, lines: seq<string>)
    requires ann(line).None?
    ensures FirstOf(ann, [line] + lines) == FirstOf(ann, lines)
  {
    assert ([line] + lines)[1..] == lines;
  }

  /** The lower-cased word of the first line carrying an annotation
      (FirstAnnotationAt states which). */
  function FirstAnnotation(lines: seq<string>): (r: Option<string>)
    ensures r.None? <==> forall k :: 0 <= k < |lines| ==> LineAnnotation(lines[k]).None?
  {
    match FirstOf(LineAnnotation, lines)
    case Some(w) => Some(Lower(w))
    case None => None
  }

  /** The scan of one source's lines that stops at the first annotation:
      the lower-cased word, or "" when no line matches. */
  method ScanAnnotation(lines: seq<string>) returns (expectedCom: string)
    ensures expectedCom == "" <==> FirstAnnotation(lines).None?
    ensures expectedCom != "" ==> FirstAnnotation(lines) == Some(expectedCom)
  {
    expectedCom := "";
    var i := 0;
    while i < |lines|
      invariant 0 <= i <= |lines|
      invariant FirstOf(LineAnnotation, lines) == FirstOf(LineAnnotation, lines[i..])
      invariant expectedCom == ""
    {
      var found := LineAnnotation(lines[i]);
      if found.Some? {
        expectedCom := Lower(found.value);
        FirstOfAt(LineAnnotation, lines[i..], 0);
        break;
      }
      FirstOfSkip(LineAnnotation, lines[i], lines[i + 1..]);
      assert [lines[i]] + lines[i + 1..] == lines[i..];
      i := i + 1;
    }
  }

  /** The expected outcome named by an annotation word; `fail` is looked for
      before `pass`. */
  function ExpectedFromWord(word: string): (r: Result<RunResult>)
    ensures r.Ok? ==> r.value == RunResult.Success || r.value == RunResult.Failure
    ensures r.Err? ==> r.error == UnknownTestResult
    ensures r == Ok(RunResult.Failure) <==> Contains(word, "fail")
    ensures r == Ok(RunResult.Success) <==> !Contains(word, "fail") && Contains(word, "pass")
  {
    if Contains(word, "fail") then Ok(RunResult.Failure)
    else if Contains(word, "pass") then Ok(RunResult.Success)
    else Err(UnknownTestResult)
  }

  /** A word containing both markers counts as `fail`. */
  lemma FailBeatsPass()
    ensures ExpectedFromWord("passfail") == Ok(RunResult.Failure)
    ensures ExpectedFromWord("fail") == Ok(RunResult.Failure)
    ensures ExpectedFromWord("pass") == Ok(RunResult.Success)
    ensures ExpectedFromWord("ok") == Err(UnknownTestResult)
  {
    assert OccursAt("passfail", "fail", 4);
    assert OccursAt("fail", "fail", 0);
    assert OccursAt("pass", "pass", 0);
    NotContainsMissingChar("pass", "fail", 'f');
    NotContainsMissingChar("ok", "fail", 'f');
    NotContainsMissingChar("ok", "pass", 'p');
  }

  /** The expected outcome declared in a test source at `path`. */
  function ParseExpected(path: string, lines: seq<string>): (r: Result<RunResult>)
    ensures r == Err(ExpectedTestResultNotFound(AfterLast(path, '/'))) <==>
              forall k :: 0 <= k < |lines| ==> LineAnnotation(lines[k]).None?
    ensures r.Ok? ==> r.value == RunResult.Success || r.value == RunResult.Failure
  {
    match FirstAnnotation(lines)
    case None => Err(ExpectedTestResultNotFound(AfterLast(path, '/')))
    case Some(w) => ExpectedFromWord(w)
  }

  /** The first annotated line decides: FirstAnnotation is its lower-cased word. */
  lemma {:induction false} FirstAnnotationAt(lines: seq<string>, k: nat)
    requires k < |lines| && LineAnnotation(lines[k]).Some?
    requires forall j :: 0 <= j < k ==> LineAnnotation(lines[j]).None?
    ensures FirstAnnotation(lines) == Some(Lower(LineAnnotation(lines[k]).value))
  {
    FirstOfAt(LineAnnotation, lines, k);
  }

  /** Only the first annotated line of a source counts, whatever follows it. */
  lemma ParseExpectedFirst(path: string, lines: seq<string>, k: nat)
    requires k < |lines| && LineAnnotation(lines[k]).Some?
    requires forall j :: 0 <= j < k ==> LineAnnotation(lines[j]).None?
    ensures ParseExpected(path, lines) == ExpectedFromWord(Lower(LineAnnotation(lines[k]).value))
  {
    FirstAnnotationAt(lines, k);
  }

  /** A line without `#` carries no annotation. */
  lemma NoAnnotationWithoutHash(line: string)
    requires '#' !in line
    ensures LineAnnotation(line).None?
  {
    NoMatchWithoutHash(line, |line|);
    assert MatchAt(line, |line|).None?;
  }

  /** A line that is only the prefix, whitespace and a word carries that word. */
  lemma AnnotationOnly(spaces: string, word: string)
    requires forall k :: 0 <= k < |spaces| ==> IsSpace(spaces[k])
    requires |word| > 0 && forall k :: 0 <= k < |word| ==> IsWordChar(word[k])
    ensures LineAnnotation(ShouldPrefix + spaces + word) == Some(word)
  {
    AnnotatedLine("", spaces, word, "");
    EmptyEnds(ShouldPrefix, spaces, word);
  }

  /** Empty ends drop off a concatenation. Stated for any strings so that the
      literal prefix of AnnotationOnly stays out of the equation. */
  lemma EmptyEnds(a: string, b: string, c: string)
    ensures "" + a + b + c + "" == a + b + c
  {
  }

  /** Lower-casing leaves a word without upper-case letters as it is. */
  lemma LowerOfNoUpper(w: string)
    requires forall k :: 0 <= k < |w| ==> !('A' <= w[k] <= 'Z')
    ensures Lower(w) == w
  {
  }

  /** The upper-case word `PASS` lower-cases to a declared success. */
  lemma UpperCasePass()
    ensures ExpectedFromWord(Lower("PASS")) == Ok(RunResult.Success)
  {
    assert Lower("PASS") == "pass";
    FailBeatsPass();
  }

  /** The lower-case word `fail` declares a failure. */
  lemma LowerCaseFail()
    ensures ExpectedFromWord(Lower("fail")) == Ok(RunResult.Failure)
  {
    LowerOfNoUpper("fail");
    FailBeatsPass();
  }

  /** A line without an annotation is skipped. */
  lemma FirstAnnotationSkip(line: string, lines: seq<string>)
    requires LineAnnotation(line).None?
    ensures FirstAnnotation([line] + lines) == FirstAnnotation(lines)
  {
    FirstOfSkip(LineAnnotation, line, lines);
  }

  /** An annotated line ends the scan. */
  lemma FirstAnnotationHead(line: string, lines: seq<string>)
    requires LineAnnotation(line).Some?
    ensures FirstAnnotation([line] + lines) == Some(Lower(LineAnnotation(line).value))
  {
    FirstOfAt(LineAnnotation, [line] + lines, 0);
  }

  /** The annotation is read case-insensitively and whatever whitespace
      follows the colon: `# Should:  PASS` declares a success. */
  lemma ShouldPassUpperCase(path: string)
    ensures ParseExpected(path, [ShouldPrefix + "  " + "PASS"]) == Ok(RunResult.Success)
  {
    AnnotationOnly("  ", "PASS");
    FirstAnnotationHead(ShouldPrefix + "  " + "PASS", []);
    UpperCasePass();
  }

  /** Of three lines, the second one annotated, the third is not read. */
  lemma SecondLineDecides(path: string, a: string, b: string, c: string)
    requires LineAnnotation(a).None? && LineAnnotation(b).Some?
    ensures ParseExpected(path, [a, b, c]) == ExpectedFromWord(Lower(LineAnnotation(b).value))
  {
    FirstAnnotationSkip(a, [b, c]);
    FirstAnnotationHead(b, [c]);
  }

  /** Lines after the first annotation are not read: a later, contradicting
      annotation changes nothing. */
  lemma FirstAnnotationWins(path: string)
    ensures ParseExpected(path, ["nop", ShouldPrefix + " " + "fail", ShouldPrefix + " " + "pass"])
            == Ok(RunResult.Failure)
  {
    NoAnnotationWithoutHash("nop");
    AnnotationOnly(" ", "fail");
    SecondLineDecides(path, "nop", ShouldPrefix + " " + "fail", ShouldPrefix + " " + "pass");
    LowerCaseFail();
  }

  // Identity of a test from its path.

  /** `s_file.split("/")[-1][:-2]`: the file name without its two-character
      extension (empty when the file name is shorter than that). */
  function NameOf(path: string): (name: string)
    ensures var file := AfterLast(path, '/');
      (|file| >= 2 ==> name + file[|file| - 2..] == file) && (|file| < 2 ==> name == "")
  {
    var file := AfterLast(path, '/');
    if |file| >= 2 then file[..|file| - 2] else ""
  }

  /** `s_file.split("tests/")[1].split(name)[0]` as written: the text after the
      first `tests/`, cut at the first occurrence of the test's name. */
  function GroupAsWritten(path: string): (r: Result<string>)
    ensures r == Err(IndexError) <==> !Contains(path, "tests/")
    ensures r == Err(ValueError) <==> Contains(path, "tests/") && NameOf(path) == ""
  {
    match SecondPiece(path, "tests/")
    case None => Err(IndexError)
    case Some(segment) =>
      var name := NameOf(path);
      if name == "" then Err(ValueError) else Ok(Before(segment, name))
  }

  /** The directory part of a path: everything up to and including its last `/`. */
  function DirPart(s: string): (d: string)
    ensures d + AfterLast(s, '/') == s
    ensures d == "" || d[|d| - 1] == '/'
  {
    var n := |s| - |AfterLast(s, '/')|;
    SplitJoin(s, n);
    s[..n]
  }

  /** The group of a test: the directories between the first `tests/` and the
      file name. */
  function GroupOf(path: string): (r: Result<string>)
    ensures r == Err(IndexError) <==> !Contains(path, "tests/")
    ensures r.Ok? ==> r.value == "" || r.value[|r.value| - 1] == '/'
  {
    match SecondPiece(path, "tests/")
    case None => Err(IndexError)
    case Some(segment) => Ok(DirPart(segment))
  }

  /** The directory part of a directory path followed by a file name. */
  lemma DirPartOf(dir: string, file: string)
    requires dir == "" || dir[|dir| - 1] == '/'
    requires '/' !in file
    ensures DirPart(dir + file) == dir
  {
    AfterLastOfJoin(dir, file, '/');
  }

  /** The group of a path that starts with `tests/` and has no other `tests/`. */
  lemma GroupOfPrefixed(rest: string)
    requires !Contains(rest, "tests/")
    ensures GroupOf("tests/" + rest) == Ok(DirPart(rest))
  {
    SecondPieceOfPrefixed("tests/", rest);
  }

  /** A path made of `tests/`, a directory path and a file name (with no
      other `tests/`) has that directory path as its group. */
  lemma GroupOfPath(dir: string, file: string)
    requires dir == "" || dir[|dir| - 1] == '/'
    requires '/' !in file
    requires !Contains(dir + file, "tests/")
    ensures GroupOf("tests/" + dir + file) == Ok(dir)
  {
    assert "tests/" + dir + file == "tests/" + (dir + file);
    GroupOfPrefixed(dir + file);
    DirPartOf(dir, file);
  }

  /** The name of a test is its file name without the extension. */
  lemma NameOfPath(dir: string, file: string)
    requires dir == "" || dir[|dir| - 1] == '/'
    requires '/' !in file && |file| >= 2
    ensures NameOf(dir + file) == file[..|file| - 2]
  {
    AfterLastOfJoin(dir, file, '/');
  }

  /** A path made of `tests/`, a directory path and a file name gives the
      file name without extension as the name. As written, the group is that
      directory path when the name is non-empty and does not occur in it
      (GroupAsWrittenCuts covers the other case); the intended group is that
      directory path always. */
  lemma IdentityOfPath(dir: string, file: string)
    requires dir == "" || dir[|dir| - 1] == '/'
    requires '/' !in file && |file| >= 2
    requires !Contains(dir + file, "tests/")
    ensures NameOf("tests/" + dir + file) == file[..|file| - 2]
    ensures |file| == 2 ==> GroupAsWritten("tests/" + dir + file) == Err(ValueError)
    ensures |file| > 2 && !Contains(dir, file[..|file| - 2]) ==> GroupAsWritten("tests/" + dir + file) == Ok(dir)
    ensures GroupOf("tests/" + dir + file) == Ok(dir)
  {
    GroupOfPath(dir, file);
    NameOfPath("tests/" + dir, file);
    assert Contains("tests/" + dir + file, "tests/") by {
      assert OccursAt("tests/" + dir + file, "tests/", 0);
      ContainsIffOccurs("tests/" + dir + file, "tests/");
    }
    if |file| > 2 && !Contains(dir, file[..|file| - 2]) {
      GroupAsWrittenAgrees(dir, file);
    }
  }

  /** As written, the group is the whole directory path when the name does not
      occur in it: the name's first occurrence is then the file name itself,
      since no occurrence can reach across the `/` that ends the directory
      path. */
  lemma GroupAsWrittenAgrees(dir: string, file: string)
    requires dir == "" || dir[|dir| - 1] == '/'
    requires '/' !in file && |file| > 2
    requires !Contains(dir + file, "tests/")
    requires !Contains(dir, file[..|file| - 2])
    ensures GroupAsWritten("tests/" + dir + file) == Ok(dir)
  {
    var name := file[..|file| - 2];
    var rest := dir + file;
    assert "tests/" + dir + file == "tests/" + rest;
    assert NameOf("tests/" + rest) == name by {
      NameOfPath("tests/" + dir, file);
    }
    assert GroupAsWritten("tests/" + rest) == Ok(Before(rest, name)) by {
      GroupAsWrittenPrefixed(rest);
    }
    assert Before(rest, name) == dir by {
      BeforeOfFile(dir, file);
    }
  }

  /** The text before the first occurrence of a file's name in a directory
      path followed by that file, when the name does not occur in the
      directory path, is the directory path. */
  lemma BeforeOfFile(dir: string, file: string)
    requires dir == "" || dir[|dir| - 1] == '/'
    requires '/' !in file && |file| > 2
    requires !Contains(dir, file[..|file| - 2])
    ensures Before(dir + file, file[..|file| - 2]) == dir
  {
    var name := file[..|file| - 2];
    var rest := dir + file;
    assert rest[|dir|..|dir| + |name|] == name;
    ContainsIffOccurs(dir, name);
    forall j | 0 <= j < |dir|
      ensures !OccursAt(rest, name, j)
    {
      if j + |name| <= |dir| {
        assert rest[j..j + |name|] == dir[j..j + |name|];
        assert !OccursAt(dir, name, j);
      } else {
        var m := |dir| - 1 - j;
        assert rest[j..j + |name|][m] == '/';
        assert name[m] == file[m];
      }
    }
    BeforeAt(rest, name, |dir|);
    assert rest[..|dir|] == dir;
  }

  /** As written, the group of a path that starts with `tests/` (and has no
      other) is the rest of the path cut at the first occurrence of the name. */
  lemma GroupAsWrittenPrefixed(rest: string)
    requires !Contains(rest, "tests/")
    requires NameOf("tests/" + rest) != ""
    ensures GroupAsWritten("tests/" + rest) == Ok(Before(rest, NameOf("tests/" + rest)))
  {
    SecondPieceOfPrefixed("tests/", rest);
  }

  /** As written, a name that occurs in the directory path cuts the group
      at that occurrence. */
  lemma GroupAsWrittenOfPath(dir: string, file: string)
    requires dir == "" || dir[|dir| - 1] == '/'
    requires '/' !in file && |file| > 2
    requires !Contains(dir + file, "tests/")
    requires Contains(dir, file[..|file| - 2])
    ensures GroupAsWritten("tests/" + dir + file) == Ok(Before(dir, file[..|file| - 2]))
  {
    var name := file[..|file| - 2];
    var rest := dir + file;
    assert "tests/" + dir + file == "tests/" + rest;
    assert NameOf("tests/" + rest) == name by {
      NameOfPath("tests/" + dir, file);
      assert "tests/" + dir + file == "tests/" + rest;
    }
    assert GroupAsWritten("tests/" + rest) == Ok(Before(rest, name)) by {
      GroupAsWrittenPrefixed(rest);
    }
    assert Before(rest, name) == Before(dir, name) by {
      BeforeExtend(dir, file, name);
    }
  }

  /** As written, a directory path that contains the test's name cuts the
      group short, at that occurrence, where the whole directory path is
      meant. */
  lemma GroupAsWrittenCuts(dir: string, file: string)
    requires dir == "" || dir[|dir| - 1] == '/'
    requires '/' !in file && |file| > 2
    requires !Contains(dir + file, "tests/")
    requires Contains(dir, file[..|file| - 2])
    ensures NameOf("tests/" + dir + file) == file[..|file| - 2]
    ensures GroupOf("tests/" + dir + file) == Ok(dir)
    ensures GroupAsWritten("tests/" + dir + file) == Ok(Before(dir, file[..|file| - 2]))
    ensures |Before(dir, file[..|file| - 2])| < |dir|
  {
    IdentityOfPath(dir, file);
    GroupAsWrittenOfPath(dir, file);
  }

  /** In `mem-access/base/` the name `base` first occurs after `mem-access/`. */
  lemma BaseDirCut()
    ensures "mem-access/base/"[|"mem-access/base/"| - 1] == '/'
    ensures Contains("mem-access/base/", "base")
    ensures Before("mem-access/base/", "base") == "mem-access/"
  {
    FindAt("mem-access/base/", "base", 11);
    assert "mem-access/base/"[..11] == "mem-access/";
  }

  /** The file `base.S` under `mem-access/base/` has the name `base`. */
  lemma BaseFile()
    ensures |"base.S"| > 2 && "base.S"[..|"base.S"| - 2] == "base"
    ensures '/' !in "base.S"
  {
  }

  /** No `tests/` inside `mem-access/base/base.S`: it has no `t`. */
  lemma NoTestsInBasePath()
    ensures !Contains("mem-access/base/" + "base.S", "tests/")
  {
    NotContainsMissingChar("mem-access/base/" + "base.S", "tests/", 't');
  }

  /** As written, `tests/mem-access/base/base.S` lands in group `mem-access/`
      instead of `mem-access/base/`. */
  lemma GroupAsWrittenCutsAtName()
    ensures NameOf("tests/" + "mem-access/base/" + "base.S") == "base"
    ensures GroupAsWritten("tests/" + "mem-access/base/" + "base.S") == Ok("mem-access/")
    ensures GroupOf("tests/" + "mem-access/base/" + "base.S") == Ok("mem-access/base/")
  {
    BaseFile();
    BaseDirCut();
    NoTestsInBasePath();
    GroupAsWrittenCuts("mem-access/base/", "base.S");
  }

  /** A test source as the glob over the selected directories yields it. */
  datatype SourceFile = SourceFile(path: string, lines: seq<string>)

  /** The record for one test source: its expected outcome, then its name and
      group, in the order collect computes them. */
  function CollectFile(f: SourceFile): (r: Result<TestData>)
    ensures r.Ok? ==> r.value.expected == RunResult.Success || r.value.expected == RunResult.Failure
    ensures r.Ok? ==> r.value.run == RunResult.Init && r.value.result == TestResult.Init
    ensures r.Ok? ==> r.value.name == NameOf(f.path) && GroupAsWritten(f.path) == Ok(r.value.group)
    ensures r.Ok? <==> ParseExpected(f.path, f.lines).Ok? && GroupAsWritten(f.path).Ok?
    ensures ParseExpected(f.path, f.lines).Err? ==> r == Err(ParseExpected(f.path, f.lines).error)
    ensures ParseExpected(f.path, f.lines).Ok? && GroupAsWritten(f.path).Err? ==>
              r == Err(GroupAsWritten(f.path).error)
  {
    var expected :- ParseExpected(f.path, f.lines);
    var name := NameOf(f.path);
    var group :- GroupAsWritten(f.path);
    Ok(DefaultTestData().(name := name, group := group, expected := expected))
  }

  /** What the loop of collect computes for one source, once the scan of its
      lines has returned `word`. */
  lemma CollectFileByScan(f: SourceFile, word: string)
    requires word == "" <==> FirstAnnotation(f.lines).None?
    requires word != "" ==> FirstAnnotation(f.lines) == Some(word)
    ensures word == "" ==> CollectFile(f) == Err(ExpectedTestResultNotFound(AfterLast(f.path, '/')))
    ensures word != "" && ExpectedFromWord(word).Err? ==> CollectFile(f) == Err(ExpectedFromWord(word).error)
    ensures word != "" && ExpectedFromWord(word).Ok? && GroupAsWritten(f.path).Err? ==>
              CollectFile(f) == Err(GroupAsWritten(f.path).error)
    ensures word != "" && ExpectedFromWord(word).Ok? && GroupAsWritten(f.path).Ok? ==>
              CollectFile(f) == Ok(DefaultTestData().(name := NameOf(f.path), group := GroupAsWritten(f.path).value,
                                                    expected := ExpectedFromWord(word).value))
  {
  }

  /** The test sources found in `dirs`, directory after directory. */
  function GlobAll(dirs: seq<string>, glob: string -> seq<SourceFile>): seq<SourceFile> {
    if dirs == [] then [] else glob(dirs[0]) + GlobAll(dirs[1..], glob)
  }

  /** Globbing a concatenation of directory lists concatenates their sources:
      the sources of a directory all come before those of the next one. */
  lemma {:induction false} GlobAllAppend(a: seq<string>, b: seq<string>, glob: string -> seq<SourceFile>)
    ensures GlobAll(a + b, glob) == GlobAll(a, glob) + GlobAll(b, glob)
  {
    if a == [] {
      assert a + b == b;
    } else {
      assert (a + b)[0] == a[0];
      assert (a + b)[1..] == a[1..] + b;
      GlobAllAppend(a[1..], b, glob);
    }
  }

  /** `glob_s_files`: the loop that extends the list with the sources of each
      directory in turn. */
  method GlobSFiles(paths: seq<string>, glob: string -> seq<SourceFile>) returns (sFiles: seq<SourceFile>)
    ensures sFiles == GlobAll(paths, glob)
  {
    sFiles := [];
    var i := 0;
    while i < |paths|
      invariant i <= |paths|
      invariant sFiles == GlobAll(paths[..i], glob)
    {
      assert paths[..i + 1] == paths[..i] + [paths[i]];
      GlobAllAppend(paths[..i], [paths[i]], glob);
      assert GlobAll([paths[i]], glob) == glob(paths[i]) by {
        assert [paths[i]][1..] == [];
      }
      sFiles := sFiles + glob(paths[i]);
      i := i + 1;
    }
    assert paths[..i] == paths;
  }

  /** The per-source results of `files`, in order. */
  function FileResults(files: seq<SourceFile>): (rs: seq<Result<TestData>>)
    ensures |rs| == |files|
    ensures forall i :: 0 <= i < |files| ==> rs[i] == CollectFile(files[i])
  {
    if files == [] then [] else [CollectFile(files[0])] + FileResults(files[1..])
  }

  /** The records of `files`, in order, or the exception of the first source
      that raises one. */
  function CollectAll(files: seq<SourceFile>): Result<seq<TestData>> {
    FirstErrorOrAll(FileResults(files))
  }

  /** Collection succeeds exactly when every source gives a record, and then
      the i-th record is the one of the i-th source; otherwise it reports the
      exception of the first source that fails. */
  lemma CollectAllMeaning(files: seq<SourceFile>)
    ensures CollectAll(files).Ok? <==> forall i :: 0 <= i < |files| ==> CollectFile(files[i]).Ok?
    ensures CollectAll(files).Ok? ==> |CollectAll(files).value| == |files|
    ensures CollectAll(files).Ok? ==>
              forall i :: 0 <= i < |files| ==> CollectFile(files[i]) == Ok(CollectAll(files).value[i])
    ensures CollectAll(files).Err? ==>
              exists k :: 0 <= k < |files| && CollectFile(files[k]) == Err(CollectAll(files).error) &&
                forall i :: 0 <= i < k ==> CollectFile(files[i]).Ok?
  {
    var rs := FileResults(files);
    FirstErrorOrAllOk(rs);
    if FirstErrorOrAll(rs).Ok? {
      FirstErrorOrAllValues(rs);
    } else {
      FirstErrorOrAllErr(rs);
    }
  }

  /** The body of collect's loop for one source: scan for the annotation,
      decide the expected outcome, then derive the name and the group. */
  method CollectOne(f: SourceFile) returns (r: Result<TestData>)
    ensures r == CollectFile(f)
  {
    var expectedCom := ScanAnnotation(f.lines);
    CollectFileByScan(f, expectedCom);
    if expectedCom == "" {
      return Err(ExpectedTestResultNotFound(AfterLast(f.path, '/')));
    }
    var expected := ExpectedFromWord(expectedCom);
    if expected.Err? {
      return Err(expected.error);
    }
    var name := NameOf(f.path);
    var groupName := GroupAsWritten(f.path);
    if groupName.Err? {
      return Err(groupName.error);
    }
    r := Ok(DefaultTestData().(name := name, group := groupName.value, expected := expected.value));
  }

  /** The loop of collect over the globbed sources. */
  method CollectFiles(files: seq<SourceFile>) returns (r: Result<seq<TestData>>)
    ensures r == CollectAll(files)
  {
    ghost var rs := FileResults(files);
    var testStructs: seq<TestData> := [];
    var i := 0;
    FirstErrorOrAllStart(rs);
    while i < |files|
      invariant 0 <= i <= |files|
      invariant FirstErrorOrAll(rs) == Prepend(testStructs, FirstErrorOrAll(rs[i..]))
    {
      var one := CollectOne(files[i]);
      assert one == rs[i];
      if one.Err? {
        FirstErrorOrAllStopsAt(rs, testStructs, i);
        return Err(one.error);
      }
      FirstErrorOrAllStep(rs, testStructs, i);
      testStructs := testStructs + [one.value];
      i := i + 1;
    }
    FirstErrorOrAllDone(rs, testStructs);
    r := Ok(testStructs);
  }

  /** `Runner.collect(group)`, where `glob` gives the test sources found in a
      directory: one record per source in order, or the exception raised by
      the first source that lacks a usable annotation or a group. */
  method Collect(group: string, glob: string -> seq<SourceFile>) returns (r: Result<seq<TestData>>)
    ensures r == CollectAll(GlobAll(SelectDirs(group), glob))
  {
    var paths := SelectDirs(group);
    var sFiles := GlobSFiles(paths, glob);
    r := CollectFiles(sFiles);
  }
}
