/** The stack-frame rewriter of tests/helpers/addstack.py: in the assembly
    sources of the duplicated memory-access tests, it saves the return address
    on the stack after each jump to domain 1 and restores it after the next
    `chdom`. */
module AddStack {
  import opened Text

  /** The comment that marks the jump into domain 1. */
  const JumpMarker: string := "/* Jump to domain 1 */"

  /** The instruction that switches domain back. */
  const ChdomMarker: string := "chdom"

  /** `file_pattern`: what a file name must contain to be rewritten. */
  const FilePattern: string := "_d1_"

  /** `lines_above`: the push of the return address. */
  const LinesAbove: seq<string> := ["    addi sp, sp, -8", "    sd ra, 8(sp)"]

  /** `lines_below`: the pop of the return address. */
  const LinesBelow: seq<string> := ["    ld ra, 8(sp)", "    addi sp, sp, 8"]

  /** Each line with its end-of-line character, as it is written out. */
  function Terminated(ls: seq<string>): (r: seq<string>)
    ensures |r| == |ls|
    ensures forall k :: 0 <= k < |ls| ==> r[k] == ls[k] + "\n"
  {
    seq(|ls|, k requires 0 <= k < |ls| => ls[k] + "\n")
  }

  /** A rewrite of this kind: the two tests it applies to each line (does it
      mark the jump, does it switch back) and the lines it inserts after a
      marker line and after a flag-lowering `chdom` line. */
  datatype Rewrite = Rewrite(isJump: string -> bool, isChdom: string -> bool, push: seq<string>, pop: seq<string>)

  /** The rewrite of `process_file`: substring tests for the two markers, and
      the stack lines with their end-of-line characters. */
  const Stack: Rewrite :=
    Rewrite(line => Contains(line, JumpMarker), line => Contains(line, ChdomMarker),
            Terminated(LinesAbove), Terminated(LinesBelow))

  /** A line of the output: one of the input's or one the rewriter inserted. */
  datatype Piece = Kept(text: string) | Inserted(text: string)

  function Insertions(ls: seq<string>): (r: seq<Piece>)
    ensures |r| == |ls|
    ensures forall k :: 0 <= k < |ls| ==> r[k] == Inserted(ls[k])
  {
    seq(|ls|, k requires 0 <= k < |ls| => Inserted(ls[k]))
  }

  /** The text of the output. */
  function Texts(ps: seq<Piece>): (r: seq<string>)
    ensures |r| == |ps|
    ensures forall k :: 0 <= k < |ps| ==> r[k] == ps[k].text
  {
    seq(|ps|, k requires 0 <= k < |ps| => ps[k].text)
  }

  /** The output with the inserted lines deleted. */
  function KeptTexts(ps: seq<Piece>): seq<string> {
    if ps == [] then []
    else KeptTexts(ps[..|ps| - 1]) + (if ps[|ps| - 1].Kept? then [ps[|ps| - 1].text] else [])
  }

  // The rewrite, one input line at a time, with the `add_lines` flag.

  /** The flag after a line: raised by a marker, lowered by a `chdom` while
      raised, in that order. */
  function NextFlag(rw: Rewrite, flag: bool, line: string): bool {
    var raised := flag || rw.isJump(line);
    raised && !rw.isChdom(line)
  }

  /** The pop lines go after this line. */
  predicate Pops(rw: Rewrite, flag: bool, line: string) {
    (flag || rw.isJump(line)) && rw.isChdom(line)
  }

  /** What one line becomes: itself, then the push lines after a marker, then
      the pop lines if a `chdom` finds the flag raised. */
  function StepPieces(rw: Rewrite, flag: bool, line: string): seq<Piece> {
    [Kept(line)]
      + (if rw.isJump(line) then Insertions(rw.push) else [])
      + (if Pops(rw, flag, line) then Insertions(rw.pop) else [])
  }

  /** The flag once the lines have been read. */
  function FlagAfter(rw: Rewrite, lines: seq<string>): bool {
    if lines == [] then false
    else NextFlag(rw, FlagAfter(rw, lines[..|lines| - 1]), lines[|lines| - 1])
  }

  /** The output of the lines, each line tagged as kept or inserted. */
  function Tagged(rw: Rewrite, lines: seq<string>): seq<Piece> {
    if lines == [] then []
    else
      var init := lines[..|lines| - 1];
      Tagged(rw, init) + StepPieces(rw, FlagAfter(rw, init), lines[|lines| - 1])
  }

  /** The lines `process_file` writes back. */
  function Output(rw: Rewrite, lines: seq<string>): seq<string> {
    Texts(Tagged(rw, lines))
  }

  lemma TextsAppend(a: seq<Piece>, b: seq<Piece>)
    ensures Texts(a + b) == Texts(a) + Texts(b)
  {
  }

  lemma TextsOfInsertions(ls: seq<string>)
    ensures Texts(Insertions(ls)) == ls
  {
  }

  /** The text one line becomes: itself, then the push lines after a marker,
      then the pop lines if a `chdom` finds the flag raised. */
  function StepText(rw: Rewrite, flag: bool, line: string): seq<string> {
    [line] + (if rw.isJump(line) then rw.push else [])
           + (if Pops(rw, flag, line) then rw.pop else [])
  }

  lemma TextsOfStep(rw: Rewrite, flag: bool, line: string)
    ensures Texts(StepPieces(rw, flag, line)) == StepText(rw, flag, line)
  {
    var push := if rw.isJump(line) then Insertions(rw.push) else [];
    var pop := if Pops(rw, flag, line) then Insertions(rw.pop) else [];
    var pushText := if rw.isJump(line) then rw.push else [];
    var popText := if Pops(rw, flag, line) then rw.pop else [];
    assert Texts(push) == pushText by {
      TextsOfInsertions(rw.push);
    }
    assert Texts(pop) == popText by {
      TextsOfInsertions(rw.pop);
    }
    assert Texts([Kept(line)] + push) == [line] + pushText by {
      TextsAppend([Kept(line)], push);
    }
    assert Texts([Kept(line)] + push + pop) == [line] + pushText + popText by {
      TextsAppend([Kept(line)] + push, pop);
    }
  }

  /** Concatenation regrouped. A separate lemma so that the proofs using it
      see one regrouping and not the whole associativity reasoning. */
  lemma Regroup<T>(a: seq<T>, b: seq<T>, c: seq<T>, d: seq<T>)
    ensures a + (b + c + d) == a + b + c + d
  {
  }

  /** The pieces of the first `i + 1` lines: those of the first `i`, then
      those of line `i`. */
  lemma TaggedStep(rw: Rewrite, lines: seq<string>, i: nat)
    requires i < |lines|
    ensures Tagged(rw, lines[..i + 1]) == Tagged(rw, lines[..i]) + StepPieces(rw, FlagAfter(rw, lines[..i]), lines[i])
    ensures FlagAfter(rw, lines[..i + 1]) == NextFlag(rw, FlagAfter(rw, lines[..i]), lines[i])
  {
    assert lines[..i + 1][..i] == lines[..i];
  }

  /** The output grows by what the next line becomes. */
  lemma OutputStep(rw: Rewrite, lines: seq<string>, i: nat)
    requires i < |lines|
    ensures Output(rw, lines[..i + 1]) ==
              Output(rw, lines[..i]) + [lines[i]] + (if rw.isJump(lines[i]) then rw.push else [])
                                 + (if Pops(rw, FlagAfter(rw, lines[..i]), lines[i]) then rw.pop else [])
    ensures FlagAfter(rw, lines[..i + 1]) == NextFlag(rw, FlagAfter(rw, lines[..i]), lines[i])
  {
    var init := lines[..i];
    var flag := FlagAfter(rw, init);
    var line := lines[i];
    var step := StepPieces(rw, flag, line);
    TaggedStep(rw, lines, i);
    assert Output(rw, lines[..i + 1]) == Output(rw, init) + StepText(rw, flag, line) by {
      TextsAppend(Tagged(rw, init), step);
      TextsOfStep(rw, flag, line);
    }
    Regroup(Output(rw, init), [line], if rw.isJump(line) then rw.push else [],
            if Pops(rw, flag, line) then rw.pop else []);
  }

  /** `process_file` between reading and writing: the lines are visited in
      order, each appended, then followed by the push lines if it holds the
      marker and by the pop lines if it holds `chdom` while the flag is up. */
  method ProcessLines(rw: Rewrite, lines: seq<string>) returns (newLines: seq<string>, addLines: bool)
    ensures newLines == Output(rw, lines)
    ensures addLines == FlagAfter(rw, lines)
  {
    newLines := [];
    addLines := false;
    var i := 0;
    while i < |lines|
      invariant 0 <= i <= |lines|
      invariant newLines == Output(rw, lines[..i])
      invariant addLines == FlagAfter(rw, lines[..i])
    {
      var line := lines[i];
      OutputStep(rw, lines, i);
      newLines := newLines + [line];
      if rw.isJump(line) {
        newLines := newLines + rw.push;
        addLines := true;
      }
      if addLines && rw.isChdom(line) {
        newLines := newLines + rw.pop;
        addLines := false;
      }
      i := i + 1;
    }
    assert lines[..i] == lines;
  }

  /** `process_file` on the lines read from a file: the stack rewrite, every
      input line kept in order, and two lines more per marker line and per
      flag-lowering `chdom` line. */
  method ProcessFile(lines: seq<string>) returns (newLines: seq<string>)
    ensures newLines == Output(Stack, lines)
    ensures KeptTexts(Tagged(Stack, lines)) == lines
    ensures |newLines| == |lines| + 2 * |MarkerLines(Stack, lines)| + 2 * |PopLinesAt(Stack, lines)|
  {
    var pending;
    newLines, pending := ProcessLines(Stack, lines);
    InputLinesKept(Stack, lines);
    StackOutputLength(lines);
  }

  // What the rewrite promises.

  lemma {:induction false} KeptTextsAppend(a: seq<Piece>, b: seq<Piece>)
    ensures KeptTexts(a + b) == KeptTexts(a) + KeptTexts(b)
    decreases |b|
  {
    if b == [] {
      assert a + b == a;
    } else {
      var front := b[..|b| - 1];
      var last := b[|b| - 1];
      var tail := if last.Kept? then [last.text] else [];
      assert (a + b)[..|a + b| - 1] == a + front;
      assert (a + b)[|a + b| - 1] == last;
      KeptTextsAppend(a, front);
      assert KeptTexts(a + b) == KeptTexts(a) + KeptTexts(front) + tail;
      assert KeptTexts(a) + KeptTexts(front) + tail == KeptTexts(a) + (KeptTexts(front) + tail);
    }
  }

  lemma {:induction false} KeptTextsOfInsertions(ls: seq<string>)
    ensures KeptTexts(Insertions(ls)) == []
    decreases |ls|
  {
    if ls != [] {
      assert Insertions(ls)[..|ls| - 1] == Insertions(ls[..|ls| - 1]);
      KeptTextsOfInsertions(ls[..|ls| - 1]);
    }
  }

  lemma KeptTextsOfStep(rw: Rewrite, flag: bool, line: string)
    ensures KeptTexts(StepPieces(rw, flag, line)) == [line]
  {
    var push := if rw.isJump(line) then Insertions(rw.push) else [];
    var pop := if Pops(rw, flag, line) then Insertions(rw.pop) else [];
    KeptTextsOfInsertions(rw.push);
    KeptTextsOfInsertions(rw.pop);
    KeptTextsAppend([Kept(line)] + push, pop);
    KeptTextsAppend([Kept(line)], push);
    assert KeptTexts([Kept(line)]) == [line] by {
      assert [Kept(line)][..0] == [];
    }
  }

  /** Deleting the inserted lines from the output gives back the input: every
      input line is kept, unchanged and in order. */
  lemma {:induction false} InputLinesKept(rw: Rewrite, lines: seq<string>)
    ensures KeptTexts(Tagged(rw, lines)) == lines
  {
    if lines != [] {
      var init := lines[..|lines| - 1];
      var last := lines[|lines| - 1];
      var before := Tagged(rw, init);
      var step := StepPieces(rw, FlagAfter(rw, init), last);
      assert Tagged(rw, lines) == before + step;
      assert KeptTexts(before) == init by {
        InputLinesKept(rw, init);
      }
      assert KeptTexts(step) == [last] by {
        KeptTextsOfStep(rw, FlagAfter(rw, init), last);
      }
      assert KeptTexts(before + step) == KeptTexts(before) + KeptTexts(step) by {
        KeptTextsAppend(before, step);
      }
      assert init + [last] == lines;
    }
  }

  /** Without a marker line the file comes out identical and the flag is
      never raised. */
  lemma {:induction false} UnmarkedUnchanged(rw: Rewrite, lines: seq<string>)
    requires forall i :: 0 <= i < |lines| ==> !rw.isJump(lines[i])
    ensures Output(rw, lines) == lines
    ensures !FlagAfter(rw, lines)
  {
    if lines != [] {
      var init := lines[..|lines| - 1];
      UnmarkedUnchanged(rw, init);
      TextsAppend(Tagged(rw, init), StepPieces(rw, FlagAfter(rw, init), lines[|lines| - 1]));
    }
  }

  /** The output of a prefix of the input is a prefix of the output. */
  lemma {:induction false} TaggedPrefix(rw: Rewrite, lines: seq<string>, j: nat)
    requires j <= |lines|
    ensures Tagged(rw, lines[..j]) <= Tagged(rw, lines)
    decreases |lines|
  {
    if j < |lines| {
      var init := lines[..|lines| - 1];
      assert init[..j] == lines[..j];
      TaggedPrefix(rw, init, j);
    } else {
      assert lines[..j] == lines;
    }
  }

  /** Line `i` of the input comes out right after the output of the lines
      before it, followed by what it inserts. */
  lemma OutputOfLine(rw: Rewrite, lines: seq<string>, i: nat)
    requires i < |lines|
    ensures var p := |Tagged(rw, lines[..i])|;
            var q := |Tagged(rw, lines[..i + 1])|;
            p <= q <= |Output(rw, lines)| && Output(rw, lines)[p..q] == StepText(rw, FlagAfter(rw, lines[..i]), lines[i])
    ensures FlagAfter(rw, lines[..i + 1]) == NextFlag(rw, FlagAfter(rw, lines[..i]), lines[i])
  {
    var before := Tagged(rw, lines[..i]);
    var step := StepPieces(rw, FlagAfter(rw, lines[..i]), lines[i]);
    TaggedStep(rw, lines, i);
    var p := |before|;
    var q := p + |step|;
    assert Tagged(rw, lines)[p..q] == step by {
      TaggedPrefix(rw, lines, i + 1);
      assert Tagged(rw, lines)[..q] == before + step;
    }
    assert Output(rw, lines)[p..q] == Texts(step);
    TextsOfStep(rw, FlagAfter(rw, lines[..i]), lines[i]);
  }

  /** A slice made of an element and two runs, taken apart. */
  lemma SliceParts<T>(out: seq<T>, p: nat, q: nat, x: T, mid: seq<T>, rest: seq<T>)
    requires p <= q <= |out| && out[p..q] == [x] + mid + rest
    ensures q == p + 1 + |mid| + |rest|
    ensures out[p] == x && out[p + 1..p + 1 + |mid|] == mid && out[p + 1..q] == mid + rest
  {
    var w := out[p..q];
    assert w[1..] == mid + rest;
    assert w[..1 + |mid|] == [x] + mid;
    assert w[1..1 + |mid|] == w[..1 + |mid|][1..];
    forall k | 0 <= k < q - p
      ensures out[p + k] == w[k]
    {
    }
    assert out[p + 1..p + 1 + |mid|] == w[1..1 + |mid|];
    assert out[p + 1..q] == w[1..];
  }

  /** Every marker line is followed at once by the push lines, and the flag
      is then up unless the same line also holds `chdom`. A second marker
      before any `chdom` therefore inserts the push lines again. */
  lemma MarkerInsertsPush(rw: Rewrite, lines: seq<string>, i: nat)
    requires i < |lines| && rw.isJump(lines[i])
    ensures var p := |Tagged(rw, lines[..i])|;
            var out := Output(rw, lines);
            p + 1 + |rw.push| <= |out| && out[p] == lines[i] && out[p + 1..p + 1 + |rw.push|] == rw.push
    ensures FlagAfter(rw, lines[..i + 1]) == !rw.isChdom(lines[i])
  {
    var p := |Tagged(rw, lines[..i])|;
    var q := |Tagged(rw, lines[..i + 1])|;
    var out := Output(rw, lines);
    var flag := FlagAfter(rw, lines[..i]);
    var rest := if Pops(rw, flag, lines[i]) then rw.pop else [];
    assert p <= q <= |out| && out[p..q] == [lines[i]] + rw.push + rest &&
           FlagAfter(rw, lines[..i + 1]) == NextFlag(rw, flag, lines[i]) by {
      OutputOfLine(rw, lines, i);
    }
    SliceParts(out, p, q, lines[i], rw.push, rest);
  }

  /** A `chdom` line met while the flag is up, or on the marker line itself,
      is followed by the pop lines (after the push lines in the second case)
      and lowers the flag. */
  lemma ChdomInsertsPop(rw: Rewrite, lines: seq<string>, i: nat)
    requires i < |lines| && rw.isChdom(lines[i])
    requires FlagAfter(rw, lines[..i]) || rw.isJump(lines[i])
    ensures var p := |Tagged(rw, lines[..i])|;
            var q := |Tagged(rw, lines[..i + 1])|;
            var out := Output(rw, lines);
            p < q <= |out| && out[p] == lines[i] &&
            out[p + 1..q] == (if rw.isJump(lines[i]) then rw.push else []) + rw.pop
    ensures !FlagAfter(rw, lines[..i + 1])
  {
    var p := |Tagged(rw, lines[..i])|;
    var q := |Tagged(rw, lines[..i + 1])|;
    var out := Output(rw, lines);
    var flag := FlagAfter(rw, lines[..i]);
    var push := if rw.isJump(lines[i]) then rw.push else [];
    assert p <= q <= |out| && out[p..q] == [lines[i]] + push + rw.pop &&
           FlagAfter(rw, lines[..i + 1]) == NextFlag(rw, flag, lines[i]) by {
      OutputOfLine(rw, lines, i);
    }
    SliceParts(out, p, q, lines[i], push, rw.pop);
  }

  /** A line without the marker that does not lower the flag, such as a
      `chdom` while the flag is down, comes out alone and keeps the flag. */
  lemma PlainLineUntouched(rw: Rewrite, lines: seq<string>, i: nat)
    requires i < |lines| && !rw.isJump(lines[i])
    requires !(FlagAfter(rw, lines[..i]) && rw.isChdom(lines[i]))
    ensures var p := |Tagged(rw, lines[..i])|;
            |Tagged(rw, lines[..i + 1])| == p + 1 && p < |Output(rw, lines)| && Output(rw, lines)[p] == lines[i]
    ensures FlagAfter(rw, lines[..i + 1]) == FlagAfter(rw, lines[..i])
  {
    var p := |Tagged(rw, lines[..i])|;
    var q := |Tagged(rw, lines[..i + 1])|;
    var out := Output(rw, lines);
    var flag := FlagAfter(rw, lines[..i]);
    assert p <= q <= |out| && out[p..q] == [lines[i]] &&
           FlagAfter(rw, lines[..i + 1]) == NextFlag(rw, flag, lines[i]) by {
      OutputOfLine(rw, lines, i);
    }
    assert out[p] == out[p..q][0];
  }

  /** The flag is up at the end exactly when some marker line has no `chdom`
      at or after it. */
  predicate PendingMarker(rw: Rewrite, lines: seq<string>, i: int) {
    0 <= i < |lines| && rw.isJump(lines[i]) &&
    forall j :: i <= j < |lines| ==> !rw.isChdom(lines[j])
  }

  lemma {:induction false} FlagMeaning(rw: Rewrite, lines: seq<string>)
    ensures FlagAfter(rw, lines) <==> exists i :: PendingMarker(rw, lines, i)
  {
    if lines != [] {
      var n := |lines|;
      var init := lines[..n - 1];
      var last := lines[n - 1];
      FlagMeaning(rw, init);
      if rw.isChdom(last) {
        forall i | 0 <= i < n
          ensures !PendingMarker(rw, lines, i)
        {
          assert rw.isChdom(lines[n - 1]);
        }
      } else {
        forall i | 0 <= i < n - 1
          ensures PendingMarker(rw, lines, i) <==> PendingMarker(rw, init, i)
        {
          assert forall j :: i <= j < n - 1 ==> init[j] == lines[j];
        }
        if rw.isJump(last) {
          assert PendingMarker(rw, lines, n - 1);
        } else if FlagAfter(rw, init) {
          var i :| PendingMarker(rw, init, i);
          assert PendingMarker(rw, lines, i);
        } else {
          forall i | 0 <= i < n
            ensures !PendingMarker(rw, lines, i)
          {
            if i < n - 1 {
              assert !PendingMarker(rw, init, i);
            }
          }
        }
      }
    }
  }

  // The length of the output.

  function MarkerLines(rw: Rewrite, lines: seq<string>): set<nat> {
    set i | 0 <= i < |lines| && rw.isJump(lines[i])
  }

  predicate PopsAt(rw: Rewrite, lines: seq<string>, i: nat)
    requires i < |lines|
  {
    Pops(rw, FlagAfter(rw, lines[..i]), lines[i])
  }

  function PopLinesAt(rw: Rewrite, lines: seq<string>): set<nat> {
    set i: nat | i < |lines| && PopsAt(rw, lines, i)
  }

  lemma StepLength(rw: Rewrite, flag: bool, line: string)
    ensures |StepPieces(rw, flag, line)| ==
            1 + (if rw.isJump(line) then |rw.push| else 0) + (if Pops(rw, flag, line) then |rw.pop| else 0)
  {
  }

  lemma MarkerLinesStep(rw: Rewrite, lines: seq<string>)
    requires lines != []
    ensures var n := |lines|;
            |MarkerLines(rw, lines)| ==
              |MarkerLines(rw, lines[..n - 1])| + (if rw.isJump(lines[n - 1]) then 1 else 0)
  {
    var n := |lines|;
    var init := lines[..n - 1];
    var extra: set<nat> := if rw.isJump(lines[n - 1]) then {n - 1} else {};
    forall i | 0 <= i < n - 1
      ensures lines[i] == init[i]
    {
    }
    assert MarkerLines(rw, lines) == MarkerLines(rw, init) + extra;
    assert n - 1 !in MarkerLines(rw, init);
  }

  lemma PopLinesStep(rw: Rewrite, lines: seq<string>)
    requires lines != []
    ensures var n := |lines|;
            |PopLinesAt(rw, lines)| ==
              |PopLinesAt(rw, lines[..n - 1])| + (if Pops(rw, FlagAfter(rw, lines[..n - 1]), lines[n - 1]) then 1 else 0)
  {
    var n := |lines|;
    var init := lines[..n - 1];
    var extra: set<nat> := if Pops(rw, FlagAfter(rw, init), lines[n - 1]) then {n - 1} else {};
    forall i: nat | i < n - 1
      ensures PopsAt(rw, lines, i) == PopsAt(rw, init, i)
    {
      assert lines[..i] == init[..i];
    }
    assert PopsAt(rw, lines, n - 1) == Pops(rw, FlagAfter(rw, init), lines[n - 1]);
    assert PopLinesAt(rw, lines) == PopLinesAt(rw, init) + extra;
    assert n - 1 !in PopLinesAt(rw, init);
  }

  /** Distributivity, kept apart so that the length proofs need no nonlinear
      arithmetic of their own. */
  lemma MulAdd(a: nat, m: nat, d: nat)
    ensures a * (m + d) == a * m + a * d
  {
  }

  /** The output is the input plus the push lines once per marker line and
      the pop lines once per `chdom` line that lowered the flag. */
  lemma {:induction false} OutputLength(rw: Rewrite, lines: seq<string>)
    ensures |Output(rw, lines)| ==
            |lines| + |rw.push| * |MarkerLines(rw, lines)| + |rw.pop| * |PopLinesAt(rw, lines)|
  {
    if lines != [] {
      var n := |lines|;
      var init := lines[..n - 1];
      var last := lines[n - 1];
      var flag := FlagAfter(rw, init);
      var m := |MarkerLines(rw, init)|;
      var k := |PopLinesAt(rw, init)|;
      var dm := if rw.isJump(last) then 1 else 0;
      var dk := if Pops(rw, flag, last) then 1 else 0;
      assert |Output(rw, init)| == |init| + |rw.push| * m + |rw.pop| * k by {
        OutputLength(rw, init);
      }
      assert |Output(rw, lines)| == |Output(rw, init)| + 1 + |rw.push| * dm + |rw.pop| * dk by {
        StepLength(rw, flag, last);
      }
      assert |MarkerLines(rw, lines)| == m + dm by {
        MarkerLinesStep(rw, lines);
      }
      assert |PopLinesAt(rw, lines)| == k + dk by {
        PopLinesStep(rw, lines);
      }
      assert |rw.push| * (m + dm) == |rw.push| * m + |rw.push| * dm by {
        MulAdd(|rw.push|, m, dm);
      }
      assert |rw.pop| * (k + dk) == |rw.pop| * k + |rw.pop| * dk by {
        MulAdd(|rw.pop|, k, dk);
      }
    }
  }

  /** For `process_file`: two more lines per marker line and two per `chdom`
      line that lowered the flag. */
  lemma StackOutputLength(lines: seq<string>)
    ensures |Output(Stack, lines)| ==
            |lines| + 2 * |MarkerLines(Stack, lines)| + 2 * |PopLinesAt(Stack, lines)|
  {
    OutputLength(Stack, lines);
  }

  // Which files are rewritten.

  /** The files the directory walk hands to `process_file`: assembly sources
      with the domain-1 pattern in their name. */
  predicate ShouldProcess(name: string) {
    EndsWith(name, ".S") && Contains(name, FilePattern)
  }

  /** Any name made of the pattern between two pieces and ending in `.S` is
      processed. */
  lemma ShouldProcessOfParts(front: string, back: string)
    ensures ShouldProcess(front + FilePattern + back + ".S")
  {
    var name := front + FilePattern + back + ".S";
    assert name[|front|..|front| + |FilePattern|] == FilePattern;
    assert OccursAt(name, FilePattern, |front|);
    ContainsIffOccurs(name, FilePattern);
    assert name[|name| - 2..] == ".S";
  }

  /** An occurrence of `pat` ends before a suffix that lacks the last
      character of `pat`. */
  lemma OccurrenceBeforeSuffix(name: string, pat: string, suf: string, k: nat)
    requires |pat| > 0 && OccursAt(name, pat, k) && EndsWith(name, suf)
    requires pat[|pat| - 1] !in suf
    ensures k + |pat| + |suf| <= |name|
  {
    var n := |name|;
    var e := k + |pat| - 1;
    assert name[e] == name[k..k + |pat|][|pat| - 1];
    forall j | n - |suf| <= j < n
      ensures name[j] in suf
    {
      assert name[j] == name[n - |suf|..][j - (n - |suf|)];
    }
  }

  /** A string cut at two points is the concatenation of its three pieces.
      Stated on its own so that callers get the equation without unfolding
      the slices. */
  lemma CutThree(s: string, a: nat, b: nat)
    requires a <= b <= |s|
    ensures s == s[..a] + s[a..b] + s[b..]
  {
  }

  /** A string with an occurrence of `pat` at `k` and ending in `suf`, the
      two apart, is cut into the text before, `pat`, the text between and
      `suf`. */
  lemma CutAround(name: string, pat: string, suf: string, k: nat)
    requires |pat| > 0 && OccursAt(name, pat, k) && EndsWith(name, suf)
    requires pat[|pat| - 1] !in suf
    ensures k + |pat| + |suf| <= |name|
    ensures name == name[..k] + pat + name[k + |pat|..|name| - |suf|] + suf
  {
    OccurrenceBeforeSuffix(name, pat, suf, k);
    var n := |name|;
    var front := name[..n - |suf|];
    CutThree(front, k, k + |pat|);
    assert front[..k] == name[..k];
    assert front[k..k + |pat|] == pat;
    assert front[k + |pat|..] == name[k + |pat|..n - |suf|];
    assert name == front + suf;
  }

  /** A processed name is made that way: its first occurrence of the pattern
      ends before the final `.S`, so CutAround takes it apart. */
  lemma ShouldProcessParts(name: string)
    requires ShouldProcess(name)
    ensures var k := Find(name, FilePattern).value;
            k + |FilePattern| + 2 <= |name| && name[k..k + |FilePattern|] == FilePattern
  {
    assert FilePattern[|FilePattern| - 1] !in ".S";
    OccurrenceBeforeSuffix(name, FilePattern, ".S", Find(name, FilePattern).value);
  }

  /** A name without `_` is never processed, whatever its extension. */
  lemma NoPatternNoProcess(name: string)
    requires '_' !in name
    ensures !ShouldProcess(name)
  {
    NotContainsMissingChar(name, FilePattern, '_');
  }
}
