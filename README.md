# jitdomain-tests: verdict pipeline and stack rewriter, in Dafny

This project models the logic of the jitdomain-tests harness. The harness collects the expected outcome of each assembly test, runs each test on a processor simulator, and reports verdicts per group. The project also models the helper that adds a stack frame around domain-1 jumps in the duplicated memory-access tests.

The model in brief:

- Records, enumerations and the exceptions the harness raises are datatypes.
- Pure logic is functions, with lemmas about them.
- The loops below are methods, each proved equal to a specification function:
  - the directory loop of `glob_s_files` (Collect.GlobSFiles, equal to Collect.GlobAll);
  - the line scan and the per-file loop of `collect`;
  - the in-place record update of `launch`, over an `array`;
  - the counter tally of `report`;
  - the line loop of `process_file`.
- Every outside effect becomes a parameter and is not modelled. That covers:
  - the environment, as a map from names to values;
  - the simulator, as a function from a test name to an `Outcome`;
  - the directory glob, as a function from a directory to its sources;
  - the run-results files found on disk, as a list of paths.

Modules, one per file:

- `Exceptions` (exceptions.dfy):
  - `Option` and `Result`;
  - the harness's exceptions, plus the Python built-ins `IndexError`, `ValueError` and `KeyError` that the modelled code can raise;
  - `FirstErrorOrAll`, which says what a loop does when it stops at the first raised exception.
- `Data` (data.dfy): `RunResult`, `TestResult` and their integer codes, `TestData`, and `DefaultTestData`.
- `Text` (text.dfy): the Python string operations used. These are `in`, `endswith`, `split(sep)[0]`, `split(sep)[1]`, `split('/')[-1]`, `lower()`, the `\s` and `\w` classes, and string `<=`. `Text.Find`, the first index of a substring, is the helper that `in` and `split(sep)` are built on here; the source does not call `str.find`.
- `Runner` (runner.dfy): `define_test_res`, `check_envs` and `default_run_file`.
- `Collect` (collect.dfy): `Runner.collect`.
- `Launch` (launch.dfy): `Runner.launch`.
- `Report` (report.dfy): `Runner.report`.
- `AddStack` (addstack.dfy): tests/helpers/addstack.py.

## Model

| member | source | states |
|---|---|---|
| Data.RunResultCode | suite/data.py:10-14 | The serialised value of a run result is one of 0..3. |
| Data.RunResultOfCode | suite/data.py:10-14 | Decoding an integer succeeds exactly on 0..3; elsewhere Python raises ValueError, modelled as None. |
| Data.RunResultCodeRoundTrip | suite/data.py:10-14 | Decoding the code of a run result gives that run result back. |
| Data.RunResultOfCodeRoundTrip | suite/data.py:10-14 | Each of 0..3 decodes, and encoding that result gives the integer back. |
| Data.RunResultCodeInjective | suite/data.py:10-14 | Two run results with the same code are the same. |
| Data.TestResultCode | suite/data.py:17-22 | The serialised value of a verdict is one of 0..4. |
| Data.TestResultOfCode | suite/data.py:17-22 | Decoding an integer succeeds exactly on 0..4. |
| Data.TestResultCodeRoundTrip | suite/data.py:17-22 | Decoding the code of a verdict gives that verdict back. |
| Data.TestResultOfCodeRoundTrip | suite/data.py:17-22 | Each of 0..4 decodes, and encoding that verdict gives the integer back. |
| Data.TestResultCodeInjective | suite/data.py:17-22 | Two verdicts with the same code are the same. |
| Data.DefaultTestData | suite/data.py:33-40 | The initial record has name "", group "tests", and INIT as its expected outcome, run outcome and verdict. |
| Runner.DefineTestRes | suite/runner.py:111-118 | The verdict is never INIT. It is ERROR exactly when the run gave ERROR, whatever was expected. It is FAILURE exactly when the run gave no error and differs from the expectation. It is EXP_SUCCESS exactly when both are SUCCESS. It is EXP_FAILURE for any other equal pair, INIT/INIT included. |
| Runner.PassedIffAsDeclared | suite/runner.py:111-118 | A test gets one of the two passing verdicts exactly when its run gave, without error, the outcome its author declared. |
| Runner.VerdictTable | suite/runner.py:111-118 | The verdict for each combination of declared SUCCESS/FAILURE with observed SUCCESS/FAILURE/ERROR, and for INIT/INIT. |
| Runner.CheckEnvs | suite/runner.py:71-83 | Succeeds exactly when both RISCV and CORE are set. A missing RISCV is reported first, whatever CORE is. CORE is reported only when RISCV is present. |
| Runner.Greatest | suite/runner.py:62-65 | The first path after the descending sort is one of the candidates and is at least every candidate in Python's string order. |
| Runner.DefaultRunFile | suite/runner.py:61-68 | Fails with MissingRunResultsFile exactly when there is no candidate. Otherwise it returns the greatest candidate. |
| Runner.DefaultRunFileUnique | suite/runner.py:61-68 | Any candidate that is at least every other candidate is the one returned. |
| Collect.FilterDirs | suite/runner.py:132 | Keeps exactly the directories whose path contains the group string, and never adds one. |
| Collect.KeepDir | suite/runner.py:132 | Definition of the filter on one directory: the directory alone when its path contains the group, nothing otherwise. It has no contract; Collect.FilterCons states its use. |
| Collect.FilterCons | suite/runner.py:132 | A directory in front of others comes first in the result when it is kept, before the filtered rest. |
| Collect.FilterDirsAppend | suite/runner.py:132 | Filtering two lists one after the other gives the filtered first list followed by the filtered second: the filter keeps the order of the directories. |
| Collect.FilterFive | suite/runner.py:132 | Five directories are kept or dropped one by one, in their order. |
| Collect.SelectDirs | suite/runner.py:132 | The selected directories are exactly those of the five test directories whose path contains the group string. |
| Collect.SelectDirsInOrder | suite/runner.py:21-32 | The selection is the five test directories in the order runner.py lists them, each kept exactly when its path contains the group. |
| Collect.FilterDirsAll | suite/runner.py:132 | When every directory matches, all are kept, in order. |
| Collect.FilterDirsSingle | suite/runner.py:132 | When exactly one directory matches, only it is kept. |
| Collect.FilterDirsNone | suite/runner.py:132 | When no directory matches, nothing is kept. |
| Collect.SelectDirsDefault | suite/runner.py:126-132 | Example: the default group "tests" selects all five directories in their listed order. |
| Collect.SelectDirsDomain | suite/runner.py:132 | Example: the group "domain" selects only tests/domain-change/. |
| Collect.SkipSpaces | suite/runner.py:141 | `\s*` from an index: it reaches an index up to which every character is `\s` and at which the line ends or a non-`\s` character stands, so it takes the longest run. |
| Collect.WordEnd | suite/runner.py:141 | The greedy `\w+` from an index: it reaches an index up to which every character is `\w` and at which the line ends or a non-`\w` character stands. |
| Collect.MatchAt | suite/runner.py:141 | A match of `# Should:\s*(\w+)` at an index starts with the prefix there. Its group is a non-empty run of word characters. |
| Collect.Search | suite/runner.py:141 | The search finds nothing exactly when no index of the line holds a match. A found word is non-empty. |
| Collect.LineAnnotation | suite/runner.py:141 | `re.search` on one line finds no annotation exactly when no index of the line holds a match; a found word is non-empty. |
| Collect.SearchFinds | suite/runner.py:141 | When an index holds a match and no earlier index does, the search returns the match at that index: the leftmost one. |
| Collect.MatchAtNoWord | suite/runner.py:141 | The prefix, whitespace, and then neither whitespace nor a word character (or the end of the line) make no match, since `\w+` needs at least one word character. |
| Collect.MatchAtWord | suite/runner.py:141 | The prefix, then whitespace, then a maximal word make a match whose group is exactly that word. `\s*` cannot take characters from `\w+`. |
| Collect.AnnotatedLine | suite/runner.py:141 | A line holding text without `#`, then the prefix, whitespace, a word and then a non-word character or the end, is annotated with that word. |
| Collect.NoAnnotationWithoutHash | suite/runner.py:141 | A line without `#` carries no annotation. |
| Collect.AnnotationOnly | suite/runner.py:141 | A line that is only the prefix, whitespace and a word is annotated with that word. |
| Collect.FirstOf | suite/runner.py:140-144 | The scan finds no value exactly when no line gives one. |
| Collect.FirstOfAt | suite/runner.py:140-144 | The scan returns the value of the first line that gives one. |
| Collect.FirstAnnotation | suite/runner.py:140-144 | No annotation is found exactly when no line carries one. |
| Collect.FirstAnnotationAt | suite/runner.py:140-144 | The word found is the lower-cased word of the first annotated line. |
| Collect.FirstAnnotationSkip | suite/runner.py:140-144 | A line without an annotation is passed over. |
| Collect.FirstAnnotationHead | suite/runner.py:140-144 | An annotated line ends the scan with its lower-cased word. |
| Collect.ScanAnnotation | suite/runner.py:139-144 | The loop that breaks at the first match leaves "" exactly when no line is annotated. Otherwise it leaves the lower-cased word of the first annotated line. |
| Collect.ExpectedFromWord | suite/runner.py:153-158 | A word containing `fail` gives FAILURE. One containing `pass` but not `fail` gives SUCCESS. Any other word raises UnknownTestResult. |
| Collect.FailBeatsPass | suite/runner.py:153-158 | `passfail` and `fail` give FAILURE, `pass` gives SUCCESS, and `ok` raises UnknownTestResult. |
| Collect.ParseExpected | suite/runner.py:139-158 | The source raises ExpectedTestResultNotFound, naming the file, exactly when none of its lines carries an annotation. Any outcome it returns is SUCCESS or FAILURE. |
| Collect.ParseExpectedFirst | suite/runner.py:140-158 | The expected outcome is decided by the first annotated line alone, whatever follows it. |
| Collect.LowerOfNoUpper | suite/runner.py:143 | Lower-casing leaves a word without upper-case letters unchanged. |
| Collect.UpperCasePass | suite/runner.py:143 | `PASS` lower-cases to `pass`. |
| Collect.LowerCaseFail | suite/runner.py:143 | `fail` is unchanged by lower-casing. |
| Collect.ShouldPassUpperCase | suite/runner.py:141-156 | `# Should:  PASS` declares SUCCESS: an upper-case word, after any whitespace. |
| Collect.SecondLineDecides | suite/runner.py:140-158 | Of three lines where the second is the first annotated one, the second decides. |
| Collect.FirstAnnotationWins | suite/runner.py:140-158 | A later, contradicting annotation changes nothing: `nop`, `# Should: fail`, `# Should: pass` declares FAILURE. |
| Collect.NameOf | suite/runner.py:160 | The name is the last `/`-component without its final two characters. It is "" when that component is shorter than two characters. |
| Collect.NameOfPath | suite/runner.py:160 | The name of a directory path followed by a file name is the file name without its extension. |
| Collect.GroupAsWritten | suite/runner.py:161 | The path's group as written. It raises IndexError exactly when the path has no `tests/`. It raises ValueError (splitting by "") exactly when the name is empty. |
| Collect.GroupAsWrittenPrefixed | suite/runner.py:161 | For `tests/` followed by a text without `tests/`, the group as written is that text cut before the first occurrence of the name. |
| Collect.GroupAsWrittenOfPath | suite/runner.py:161 | When the name occurs in the directory path, the group as written is that path cut at the occurrence. |
| Collect.GroupAsWrittenCuts | suite/runner.py:161 | When the directory path contains the name, the group as written is strictly shorter than the intended group, which is the whole directory path. |
| Collect.GroupAsWrittenCutsAtName | suite/runner.py:161 | The group of `tests/mem-access/base/base.S` is `mem-access/` as written, and `mem-access/base/` as intended. |
| Collect.GroupOf | suite/runner.py:161 | The intended group raises IndexError exactly when the path has no `tests/`. Otherwise it is empty or ends in `/`. |
| Collect.GroupOfPrefixed | suite/runner.py:161 | For `tests/` followed by a text without `tests/`, the group is that text's directory part. |
| Collect.GroupOfPath | suite/runner.py:161 | The group of `tests/`, a directory path and a file name is exactly that directory path, trailing `/` kept. |
| Collect.IdentityOfPath | suite/runner.py:160-161 | For `tests/`, a directory path and a file name, the name is the file name without its extension. As written, a two-character file name (empty name) raises ValueError, and the group is the directory path whenever the name does not occur in it. The intended group is the directory path in every case. |
| Collect.GroupAsWrittenAgrees | suite/runner.py:161 | As written, the group is the whole directory path when the name does not occur in the directory path. |
| Collect.BeforeOfFile | suite/runner.py:161 | The text before the first occurrence of a file's name, in a directory path followed by that file, is the directory path when the name does not occur in it: no occurrence can reach across the directory path's final `/`. |
| Collect.CollectFile | suite/runner.py:136-165 | A record is produced exactly when the expected outcome parses and the group expression of line 161, as written, gives a value. The record carries SUCCESS or FAILURE, INIT as run outcome and verdict, the name of its path and that as-written group. A parse error is passed on as raised; after a successful parse, the group's IndexError or ValueError is raised. |
| Collect.CollectFileByScan | suite/runner.py:139-165 | Given the word left by the line scan, the source's result follows its branches in order: no word, an unknown word, the as-written group's error, or the filled record. |
| Collect.FileResults | suite/runner.py:135-165 | The per-source results, in order, one per source. |
| Collect.CollectAllMeaning | suite/runner.py:135-165 | Collection succeeds exactly when every source gives a record, and then the i-th record is that of the i-th source. Otherwise it raises the exception of the first failing source, all earlier sources having succeeded. |
| Collect.GlobAll | suite/runner.py:54-58 | Definition of what `glob_s_files` returns: the sources of each directory, directory after directory. It has no contract; Collect.GlobAllAppend states its order. |
| Collect.GlobSFiles | suite/runner.py:54-58 | The `extend` loop of `glob_s_files` returns the sources of the directories, directory after directory, in their order: Collect.GlobAll of its input. |
| Collect.GlobAllAppend | suite/runner.py:54-58 | Globbing two directory lists one after the other gives the sources of the first list followed by those of the second. |
| Collect.CollectAll | suite/runner.py:135-165 | Definition of the collection result: the records of the sources in order, or the first exception. It has no contract; Collect.CollectAllMeaning states its meaning. |
| Collect.CollectOne | suite/runner.py:136-165 | The loop body for one source computes that source's record, with the group as written, or its exception. |
| Collect.CollectFiles | suite/runner.py:135-165 | The loop over the sources appends their records and stops at the first exception. It computes CollectAll. |
| Collect.Collect | suite/runner.py:125-172 | collect returns the records of the sources globbed from the selected directories, each with the group as written, or the first exception. |
| Launch.CommandOutput | suite/runner.py:217-221 | Definition of the captured text: stdout followed by ` None`, stderr being merged into stdout. It has no contract; Launch.NoneSuffixAddsNoMarker states what the suffix cannot change. |
| Launch.NoneSuffixAddsNoMarker | suite/runner.py:217-221 | The ` None` appended to the captured output cannot complete either marker, so a marker occurs in the text classified exactly when it occurs in the simulator's stdout. |
| Launch.ClassifyRun | suite/runner.py:222-240 | A run whose simulator executable was not found (FileNotFoundError) or that timed out gives ERROR, its output unread. A completed run gives FAILURE exactly when its output holds `FAILED`, whatever its exit code. It gives SUCCESS exactly when the output holds `SUCCESS` but not `FAILED`. It raises UnknownTestResult exactly when the output holds neither. |
| Launch.Execute | suite/runner.py:241-248 | A record after its run has the run outcome set and the verdict from define_test_res. Its name, group and expected outcome are unchanged. |
| Launch.RunTest | suite/runner.py:199-248 | One test succeeds exactly when its output is classified. The updated record is then Execute of its outcome. Otherwise it raises UnknownTestResult. |
| Launch.KeyLe | suite/runner.py:198 | Definition of the `(group, name)` tuple order. It has no contract; Launch.KeyLeTotal and Launch.KeyLeTransitive state that it is a total preorder. |
| Launch.KeyLeTotal | suite/runner.py:198 | Any two records are ordered by the `(group, name)` key. |
| Launch.KeyLeTransitive | suite/runner.py:198 | The `(group, name)` order is transitive. |
| Launch.Insert | suite/runner.py:198 | Insertion adds exactly one copy of the record. |
| Launch.InsertSorted | suite/runner.py:198 | Inserting into a sorted sequence keeps it sorted. |
| Launch.SortByKey | suite/runner.py:198 | The sorted records are in ascending `(group, name)` order and are a permutation of the loaded ones. |
| Launch.RunResults | suite/runner.py:199-248 | The per-test results of the batch, in order, one per record. |
| Launch.BatchErrorIsUnknown | suite/runner.py:236-238 | The only exception a batch raises is UnknownTestResult. |
| Launch.LaunchResult | suite/runner.py:177-262 | Definition of launch's result: the environment error, or the sorted records run in order with the first run error. It has no contract; Launch.LaunchMeaning states its meaning. |
| Launch.LaunchMeaning | suite/runner.py:177-262 | launch succeeds exactly when both variables are set and every loaded record's output is understood. A missing variable is raised before any run. A failing batch raises UnknownTestResult. On success it returns as many records as were loaded, sorted by `(group, name)`, each the i-th sorted record updated by its run. |
| Launch.RunBatch | suite/runner.py:199-248 | The in-place loop over the array succeeds exactly when every record's output is understood, and then writes into each record its run outcome and verdict. Otherwise it raises UnknownTestResult at the first such record. The records before it are updated, and it and the records after it are left as they were. |
| Launch.Launch | suite/runner.py:177-262 | launch: the environment check, the sort, then the in-place batch on an array of the sorted records. It computes LaunchResult. |
| Report.Count | suite/runner.py:289-290 | Counting a verdict adds one to the total and one to that verdict's counter, leaving the others. A verdict without a counter (INIT) raises KeyError. |
| Report.TallyOfStep | suite/runner.py:283-290 | A record added at the end changes its group's counters as Count does. |
| Report.TallyOfAbsent | suite/runner.py:287-288 | A group with no record has all counters at zero: a fresh copy of the default. |
| Report.GroupsOfStep | suite/runner.py:285-288 | A record added at the end adds its group to the groups present. |
| Report.ReportMapStep | suite/runner.py:283-290 | One iteration of the loop updates the counter map to the map of the longer prefix: it inserts a fresh tally for a new group, then counts the record. |
| Report.ReportMap | suite/runner.py:283-290 | Definition of the counter map: for each group present, its record count and its count per verdict. It has no contract; Report.ReportMapStep and Report.ReportMeaning state its properties. |
| Report.ReportResult | suite/runner.py:273-290 | Definition of report's result: KeyError when a record is unjudged, the counter map otherwise. It has no contract; Report.ReportMeaning states its meaning. |
| Report.Passed | suite/runner.py:294 | Definition of a group's passed count, the expected successes plus the expected failures. It has no contract; Report.ReportMeaning bounds it by the total. |
| Report.Report | suite/runner.py:273-311 | The tally loop over the records computes ReportResult. |
| Report.GroupSizeIsSumOfVerdicts | suite/runner.py:289-290 | With every record judged, a group's size is the sum of its four verdict counts. |
| Report.GroupSizePositive | suite/runner.py:287-288 | A group present among the records has at least one record. |
| Report.ReportMeaning | suite/runner.py:273-295 | report raises KeyError exactly when some record is unjudged. Otherwise the map's keys are exactly the groups present. Each group's total is its number of records, which is positive and equal to the sum of its four verdict counts. Passed (EXP_SUCCESS + EXP_FAILURE) is at most the total. |
| Report.ReportEmpty | suite/runner.py:273-283 | An empty run gives an empty map. |
| Report.SumValuesRemove | suite/runner.py:283-290 | A sum over a set of groups is one group's value plus the sum over the others. |
| Report.SumValuesBump | suite/runner.py:283-290 | Adding one at a single group adds one to the sum when that group is included. |
| Report.GroupSizesSum | suite/runner.py:283-290 | The group sizes add up to the number of records. |
| Report.ReportTotalsSum | suite/runner.py:283-290 | The totals of a successful report add up to the number of records. |
| AddStack.Terminated | tests/helpers/addstack.py:27 | Each inserted line is the configured line followed by "\n". |
| AddStack.Output | tests/helpers/addstack.py:20-32 | Definition of the rewritten lines: each input line, then the push lines after a marker, then the pop lines when a `chdom` finds the flag raised. It has no contract; AddStack.OutputStep, AddStack.InputLinesKept and AddStack.OutputLength state its properties. |
| AddStack.FlagAfter | tests/helpers/addstack.py:21-32 | Definition of the flag after the lines have been read. It has no contract; AddStack.FlagMeaning states when it is up. |
| AddStack.OutputStep | tests/helpers/addstack.py:23-32 | Reading one more line appends it to the output. The push lines follow if it holds the marker, and then the pop lines if it holds `chdom` with the flag raised by then. The flag moves accordingly. |
| AddStack.ProcessLines | tests/helpers/addstack.py:20-32 | The loop of process_file produces the specified output and leaves the flag as specified, for any rewrite of this shape. |
| AddStack.ProcessFile | tests/helpers/addstack.py:15-35 | process_file between reading and writing gives the stack rewrite of the lines. Every input line is kept, and the output has two extra lines per marker line and per flag-lowering `chdom` line. |
| AddStack.InputLinesKept | tests/helpers/addstack.py:23-24 | Deleting the inserted lines from the output gives back the input, unchanged and in order. |
| AddStack.UnmarkedUnchanged | tests/helpers/addstack.py:26-32 | A file without a marker line comes out identical, and the flag is never raised. |
| AddStack.MarkerInsertsPush | tests/helpers/addstack.py:26-28 | Every marker line is followed at once by the push lines. The flag is then up unless the same line also holds `chdom`. |
| AddStack.ChdomInsertsPop | tests/helpers/addstack.py:26-32 | A `chdom` line met with the flag up, or on the marker line itself, is followed by the pop lines, after the push lines in the second case. It lowers the flag. |
| AddStack.PlainLineUntouched | tests/helpers/addstack.py:30-32 | A line without the marker that does not lower the flag, such as a `chdom` with the flag down, comes out alone and keeps the flag. |
| AddStack.FlagMeaning | tests/helpers/addstack.py:21-32 | The flag is up at the end exactly when some marker line has no `chdom` at or after it. |
| AddStack.OutputLength | tests/helpers/addstack.py:23-32 | The output length is the input length, plus the push length per marker line, plus the pop length per flag-lowering `chdom` line. |
| AddStack.StackOutputLength | tests/helpers/addstack.py:23-32 | For process_file's lines: two more lines per marker line and two per flag-lowering `chdom` line. |
| AddStack.ShouldProcess | tests/helpers/addstack.py:45 | Definition of `file.endswith(".S") and "_d1_" in file`. It has no contract; AddStack.ShouldProcessOfParts and AddStack.ShouldProcessParts state which names it accepts. |
| AddStack.ShouldProcessOfParts | tests/helpers/addstack.py:45 | Any name made of some text, `_d1_`, some text and `.S` is processed. |
| AddStack.ShouldProcessParts | tests/helpers/addstack.py:45 | A processed name ends in `.S`, and its first `_d1_` lies entirely before that `.S`. |
| AddStack.NoPatternNoProcess | tests/helpers/addstack.py:45 | A name without `_` is never processed. |
| Text.Find | suite/runner.py:153-155 | The helper that `in` (Text.Contains) and `split(sep)` (Text.Before, Text.SecondPiece) are built on, not a call of the source: it returns an index where `sub` occurs and before which it does not, or nothing exactly when `sub` occurs nowhere. |
| Text.Contains | suite/runner.py:153-155 | Definition of `sub in s`: Text.Find gives an index. It has no contract; Text.ContainsIffOccurs states it. |
| Text.ContainsIffOccurs | suite/runner.py:153-155 | `sub in s` holds exactly when `sub` occurs at some index of `s`. |
| Text.Before | suite/runner.py:161 | `split(sep)[0]` is the text before the first occurrence of `sep`: a prefix of the string, with no occurrence of `sep` starting inside it. It is the whole string exactly when `sep` does not occur; otherwise `sep` follows it. |
| Text.BeforeAt | suite/runner.py:161 | When `sep` occurs at an index and at no earlier one, `split(sep)[0]` is the text up to that index. |
| Text.SecondPiece | suite/runner.py:161 | `split(sep)[1]` exists exactly when `sep` occurs. It is the text after the first `sep`, up to the next one. |
| Text.AfterLast | suite/runner.py:160 | `split('/')[-1]` is the longest suffix without `/`, preceded by `/` when shorter than the string. |
| Text.EndsWith | tests/helpers/addstack.py:45 | Definition of `s.endswith(t)`: `t` is no longer than `s` and equals the same number of characters at the end of `s`. It has no contract; AddStack.ShouldProcessParts uses it. |
| Text.IsSpace | suite/runner.py:141 | Definition of `\s` for a `str` pattern: the code points of Python's `str.isspace`, that is 9-13, 28-32, 0x85, 0xA0, 0x1680, 0x2000-0x200A, 0x2028, 0x2029, 0x202F, 0x205F and 0x3000. It has no contract; Text.SpaceIsNotWord relates it to `\w`. |
| Text.IsWordChar | suite/runner.py:141 | Definition of `\w`, restricted to ASCII letters, digits and `_`. It has no contract; Collect.MatchAt's restriction is listed under Left out. |
| Text.SpaceIsNotWord | suite/runner.py:141 | No character is matched by both `\s` and `\w`, so `\s*` cannot take a character that `\w+` needs. |
| Text.Lower | suite/runner.py:143 | `lower()` maps each character, and only ASCII upper-case letters change. |
| Text.StrLe | suite/runner.py:63 | Definition of `a <= b` on Python strings, lexicographic on code points, the order `runs.sort(reverse=True)` at line 63 and `sorted` at line 198 use. It has no contract; Text.StrLeTotal, Text.StrLeTransitive and Text.StrLeAntisymmetric state that it is a total order. |
| Text.StrLeTotal | suite/runner.py:63 | Python's string order is total. |
| Text.StrLeTransitive | suite/runner.py:63 | Python's string order is transitive. |
| Text.StrLeAntisymmetric | suite/runner.py:63 | Two strings each at most the other are equal. |

## Left out

- File and process I/O. The model leaves out reading test sources, the `glob.glob` calls inside `glob_s_files` and in `default_run_file`, `os.mkdir`, the trace copy with `shutil.copy`, and the JSON dump and load. It also leaves out `os.walk` and the file read and write in addstack.py. The lines, the sources and the candidate paths are parameters. No exception from this I/O is modelled: for instance `shutil.copy` at suite/runner.py:251-254 raises when `trace_hart_00.dasm` is missing, as it can be after a run whose simulator was not found, and that aborts launch. So the "exactly when" of Launch.LaunchMeaning and Collect.CollectAllMeaning holds on the assumption that every such I/O call succeeds.
- `cleanup_build` and the simulator `subprocess.run`. Both are external processes. The simulator's effect is an `Outcome` given per test name. Exceptions from `cleanup_build` are not modelled.
- Time: the run directory's timestamp. Display: colour codes, `print`, and the colour choice in report. The CLI (suite/cli.py) and packaging (setup.py) are not part of this model.
- The `re` engine itself. `# Should:\s*(\w+)` is modelled by hand-written scanners.
- Collect.MatchAt: `\w` is ASCII letters, digits and `_`; Python's `\w` also accepts non-ASCII letters and digits. `\s` follows Python's Unicode whitespace list.
- Text.Lower: lower-cases ASCII letters only. Python's `lower()` also maps non-ASCII letters.
- Runner.DefaultRunFile: the descending `sort` is modelled by its outcome, the greatest path, rather than by a sorting step.
- Launch.ClassifyRun: only `FileNotFoundError` and `subprocess.TimeoutExpired` are caught at runner.py:222-225 and give ERROR (the `NotStarted` and `TimedOut` outcomes). Other start failures of `subprocess.run`, such as `PermissionError` or another `OSError`, and a `UnicodeDecodeError` while decoding the output under `text=True`, are not caught: they propagate out of launch and end the whole batch. The `Outcome` type has no value for them, so the model does not capture that abort.
- Launch.SortByKey: Python's `sorted` is stable. The insertion sort used here is also stable, but no lemma states stability.
- Report.ReportResult: a record whose verdict is INIT makes report raise `KeyError`. The model returns that error and does not exclude such records by a precondition.
- Report.Report: the per-group summary the source prints is not modelled, and neither is reading the default run file before the tally.
- AddStack.ProcessLines: stated for any `Rewrite`, a value holding the two line tests and the two inserted blocks. `AddStack.Stack` is the instance process_file uses, with substring tests for `/* Jump to domain 1 */` and `chdom` and the `lines_above`/`lines_below` lines each followed by "\n".
- AddStack.ProcessFile: the `try`/`except` that prints and swallows an I/O error is not modelled.
- AddStack.ShouldProcessParts: states that the first `_d1_` ends before the final `.S`. It does not state the full decomposition of the name; AddStack.CutAround gives that, for any such pattern and suffix.
- Collect.Search and Collect.FirstAnnotation state only when they find nothing. Collect.SearchFinds and Collect.FirstAnnotationAt state which value they find.

## Findings

| source | as written | input that shows it | evidently intended | confidence | as-written member | corrected member |
|---|---|---|---|---|---|---|
| suite/runner.py:161 | The group is the text after the first `tests/`, cut at the first occurrence of the test's name anywhere, directories included. | `tests/mem-access/base/base.S`: name `base`, group `mem-access/` | The group is the directory path between `tests/` and the file name, `mem-access/base/`. The help text of suite/cli.py:41-45 says a group is a word of the tests' directory path, and that `mem-access` selects the tests of its subdirectories `base`, `duplicated` and `shadow-stack`; the cut at the name is not part of that. | high (not executed) | Collect.GroupAsWrittenCutsAtName | Collect.GroupOfPath |
| suite/runner.py:11-16 | runner.py imports `MissingRunResultsFile` from suite.exceptions, whose module suite/exceptions.py defines only three exception classes. | Importing suite/runner.py: the `from suite.exceptions import (...)` raises ImportError. | suite/exceptions.py defines `MissingRunResultsFile`, which default_run_file raises when no run-results file exists. | high (not executed) | Exceptions.ImportFailsAsWritten | Exceptions.ImportResolvesIntended |

Collect.GroupAsWritten models line 161 as written, and Collect.GroupAsWrittenCuts states the general case. The collection pipeline (Collect.CollectFile, Collect.CollectOne, Collect.Collect) follows the code and uses the as-written group. Collect.GroupOf is the corrected definition; Collect.IdentityOfPath states that the two agree whenever the test's name does not occur in its directory path.

The `Exception` datatype includes `MissingRunResultsFile`, as the corrected suite/exceptions.py would define it. Exceptions.ImportFailsAsWritten states that the import as written does not resolve.
