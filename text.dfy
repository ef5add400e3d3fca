/** The Python `str` operations the harness relies on, over `string`:
    `sub in s`, `s.split(sep)[0]`, `s.split(sep)[1]`, `s.split("/")[-1]`,
    `s.endswith(t)`, `s.lower()`, the regular-expression classes `\s` and `\w`,
    and the ordering `<=` of strings. */
module Text {
  import opened Exceptions

  /** `sub` occurs in `s` starting at index `i`. */
  predicate OccursAt(s: string, sub: string, i: nat) {
    i + |sub| <= |s| && s[i..i + |sub|] == sub
  }

  lemma OccursShift(s: string, sub: string)
    requires |s| > 0
    ensures forall j :: 1 <= j <= |s| ==> (OccursAt(s, sub, j) <==> OccursAt(s[1..], sub, j - 1))
  {
    forall j | 1 <= j <= |s|
      ensures OccursAt(s, sub, j) <==> OccursAt(s[1..], sub, j - 1)
    {
      if j + |sub| <= |s| {
        assert s[1..][j - 1..j - 1 + |sub|] == s[j..j + |sub|];
      }
    }
  }

  /** `s.find(sub)`: the first index at which `sub` occurs in `s`. */
  function Find(s: string, sub: string): (r: Option<nat>)
    ensures r.Some? ==> OccursAt(s, sub, r.value)
    ensures r.Some? ==> forall j :: 0 <= j < r.value ==> !OccursAt(s, sub, j)
    ensures r.None? ==> forall j :: 0 <= j <= |s| ==> !OccursAt(s, sub, j)
    decreases |s|
  {
    if OccursAt(s, sub, 0) then Some(0)
    else if |s| == 0 then None
    else
      OccursShift(s, sub);
      match Find(s[1..], sub)
      case Some(k) => Some(k + 1)
      case None => None
  }

  /** `sub in s`. */
  predicate Contains(s: string, sub: string) {
    Find(s, sub).Some?
  }

  lemma ContainsIffOccurs(s: string, sub: string)
    ensures Contains(s, sub) <==> exists i :: 0 <= i <= |s| && OccursAt(s, sub, i)
  {
    if Contains(s, sub) {
      assert OccursAt(s, sub, Find(s, sub).value);
    }
  }

  /** An occurrence at `k` with nothing before it that could start one is the first. */
  lemma FindAt(s: string, sub: string, k: nat)
    requires |sub| > 0 && OccursAt(s, sub, k) && sub[0] !in s[..k]
    ensures Find(s, sub) == Some(k)
  {
    forall j | 0 <= j < k
      ensures !OccursAt(s, sub, j)
    {
      assert s[..k][j] == s[j];
      if j + |sub| <= |s| {
        assert s[j..j + |sub|][0] == s[j];
      }
    }
  }

  /** An occurrence with none before it is the one Find returns. */
  lemma {:induction false} FindFirst(s: string, sub: string, k: nat)
    requires OccursAt(s, sub, k)
    requires forall j :: 0 <= j < k ==> !OccursAt(s, sub, j)
    ensures Find(s, sub) == Some(k)
    decreases k
  {
    if k > 0 {
      OccursShift(s, sub);
      forall j | 0 <= j < k - 1
        ensures !OccursAt(s[1..], sub, j)
      {
        assert !OccursAt(s, sub, j + 1);
      }
      FindFirst(s[1..], sub, k - 1);
    }
  }

  /** Text appended after the first occurrence does not move it. */
  lemma FindExtend(s: string, t: string, sub: string)
    requires Find(s, sub).Some?
    ensures Find(s + t, sub) == Find(s, sub)
  {
    var i := Find(s, sub).value;
    forall j | 0 <= j <= i
      ensures OccursAt(s + t, sub, j) <==> OccursAt(s, sub, j)
    {
      if j + |sub| <= |s| {
        assert (s + t)[j..j + |sub|] == s[j..j + |sub|];
      }
    }
    FindFirst(s + t, sub, i);
  }

  /** A string lacking one of the characters of `sub` does not contain `sub`. */
  lemma NotContainsMissingChar(s: string, sub: string, c: char)
    requires c in sub && c !in s
    ensures !Contains(s, sub)
  {
    var k :| 0 <= k < |sub| && sub[k] == c;
    forall i | 0 <= i <= |s|
      ensures !OccursAt(s, sub, i)
    {
      if i + |sub| <= |s| {
        assert s[i..i + |sub|][k] == s[i + k];
      }
    }
  }

  /** `s.endswith(t)`. */
  predicate EndsWith(s: string, t: string) {
    |t| <= |s| && s[|s| - |t|..] == t
  }

  /** `s.split(sep)[0]`, for a non-empty `sep`: the text before the first `sep`. */
  function Before(s: string, sep: string): (r: string)
    requires sep != ""
    ensures |r| <= |s| && r == s[..|r|]
    ensures !Contains(r, sep)
    ensures forall j :: 0 <= j < |r| ==> !OccursAt(s, sep, j)
    ensures |r| < |s| ==> OccursAt(s, sep, |r|)
    ensures |r| < |s| <==> Contains(s, sep)
  {
    match Find(s, sep)
    case Some(i) =>
      assert !Contains(s[..i], sep) by {
        forall j | 0 <= j <= i
          ensures !OccursAt(s[..i], sep, j)
        {
          if j + |sep| <= i {
            assert !OccursAt(s, sep, j);
            assert s[..i][j..j + |sep|] == s[j..j + |sep|];
          }
        }
      }
      s[..i]
    case None => s
  }

  /** The text before the first occurrence of `sep`, wherever that is. */
  lemma BeforeAt(s: string, sep: string, k: nat)
    requires sep != "" && OccursAt(s, sep, k)
    requires forall j :: 0 <= j < k ==> !OccursAt(s, sep, j)
    ensures Before(s, sep) == s[..k]
  {
    FindFirst(s, sep, k);
  }

  /** Text after the first `sep` does not change what comes before it. */
  lemma BeforeExtend(s: string, t: string, sep: string)
    requires sep != "" && Contains(s, sep)
    ensures Before(s + t, sep) == Before(s, sep)
  {
    FindExtend(s, t, sep);
    var i := Find(s, sep).value;
    assert (s + t)[..i] == s[..i];
  }

  /** `s.split(sep)[1]`: the text between the first and the second `sep`, or
      None where Python raises IndexError. */
  function SecondPiece(s: string, sep: string): (r: Option<string>)
    requires sep != ""
    ensures r.None? <==> !Contains(s, sep)
    ensures r.Some? ==> exists i :: Find(s, sep) == Some(i) && r.value == Before(s[i + |sep|..], sep)
  {
    match Find(s, sep)
    case Some(i) => Some(Before(s[i + |sep|..], sep))
    case None => None
  }

  /** A string that starts with `sep` splits right after that first `sep`. */
  lemma SecondPieceOfPrefixed(sep: string, rest: string)
    requires sep != ""
    ensures SecondPiece(sep + rest, sep) == Some(Before(rest, sep))
  {
    assert OccursAt(sep + rest, sep, 0);
    assert (sep + rest)[|sep|..] == rest;
  }

  /** A string is its prefix followed by the rest. A separate lemma so that
      callers get the equation without reasoning about the slices. */
  lemma SplitJoin(s: string, n: nat)
    requires n <= |s|
    ensures s[..n] + s[n..] == s
  {
  }

  /** `s.split(c)[-1]`: the text after the last `c`. */
  function AfterLast(s: string, c: char): (r: string)
    ensures |r| <= |s| && r == s[|s| - |r|..]
    ensures c !in r
    ensures |r| < |s| ==> s[|s| - |r| - 1] == c
  {
    if |s| == 0 then ""
    else if s[|s| - 1] == c then ""
    else AfterLast(s[..|s| - 1], c) + [s[|s| - 1]]
  }

  /** The three properties of AfterLast determine it. */
  lemma AfterLastUnique(s: string, c: char, t: string)
    requires |t| <= |s| && t == s[|s| - |t|..]
    requires c !in t
    requires |t| < |s| ==> s[|s| - |t| - 1] == c
    ensures AfterLast(s, c) == t
  {
  }

  /** The text after the last `c` of a `c`-terminated prefix and a `c`-free
      remainder is that remainder. */
  lemma AfterLastOfJoin(dir: string, file: string, c: char)
    requires dir == "" || dir[|dir| - 1] == c
    requires c !in file
    ensures AfterLast(dir + file, c) == file
  {
    AfterLastUnique(dir + file, c, file);
  }

  /** A character matched by `\s` (Python's Unicode whitespace). */
  predicate IsSpace(ch: char) {
    var n := ch as int;
    9 <= n <= 13 || 28 <= n <= 32 || n == 0x85 || n == 0xA0 || n == 0x1680
    || 0x2000 <= n <= 0x200A || n == 0x2028 || n == 0x2029 || n == 0x202F
    || n == 0x205F || n == 0x3000
  }

  /** A character matched by `\w`, restricted to ASCII. */
  predicate IsWordChar(ch: char) {
    ('a' <= ch <= 'z') || ('A' <= ch <= 'Z') || ('0' <= ch <= '9') || ch == '_'
  }

  lemma SpaceIsNotWord(ch: char)
    ensures !(IsSpace(ch) && IsWordChar(ch))
  {
  }

  /** `ch.lower()` on ASCII letters. */
  function LowerChar(ch: char): (r: char)
    ensures 'A' <= ch <= 'Z' ==> r as int == ch as int + 32
    ensures !('A' <= ch <= 'Z') ==> r == ch
  {
    if 'A' <= ch <= 'Z' then (ch as int + 32) as char else ch
  }

  /** `s.lower()`, on ASCII letters. */
  function Lower(s: string): (r: string)
    ensures |r| == |s|
    ensures forall k :: 0 <= k < |s| ==> r[k] == LowerChar(s[k])
  {
    seq(|s|, k requires 0 <= k < |s| => LowerChar(s[k]))
  }

  /** `a <= b` on Python strings: lexicographic on code points. */
  predicate StrLe(a: string, b: string)
    decreases |a|
  {
    |a| == 0 || (|b| > 0 && (a[0] < b[0] || (a[0] == b[0] && StrLe(a[1..], b[1..]))))
  }

  /** `a < b` on Python strings. */
  predicate StrLt(a: string, b: string) {
    StrLe(a, b) && a != b
  }

  lemma {:induction false} StrLeReflexive(a: string)
    ensures StrLe(a, a)
  {
    if |a| > 0 {
      StrLeReflexive(a[1..]);
    }
  }

  lemma {:induction false} StrLeTotal(a: string, b: string)
    ensures StrLe(a, b) || StrLe(b, a)
    decreases |a|
  {
    if |a| > 0 && |b| > 0 && a[0] == b[0] {
      StrLeTotal(a[1..], b[1..]);
    }
  }

  lemma {:induction false} StrLeTransitive(a: string, b: string, c: string)
    requires StrLe(a, b) && StrLe(b, c)
    ensures StrLe(a, c)
    decreases |a|
  {
    if |a| > 0 && a[0] == b[0] && b[0] == c[0] {
      StrLeTransitive(a[1..], b[1..], c[1..]);
    }
  }

  lemma {:induction false} StrLeAntisymmetric(a: string, b: string)
    requires StrLe(a, b) && StrLe(b, a)
    ensures a == b
    decreases |a|
  {
    if |a| > 0 {
      StrLeAntisymmetric(a[1..], b[1..]);
      assert a == [a[0]] + a[1..];
      assert b == [b[0]] + b[1..];
    }
  }

  lemma {:induction false} StrLtLeTransitive(a: string, b: string, c: string)
    requires StrLt(a, b) && StrLe(b, c)
    ensures StrLt(a, c)
    decreases |a|
  {
    StrLeTransitive(a, b, c);
    if |a| > 0 && a[0] == b[0] && b[0] == c[0] {
      assert a == [a[0]] + a[1..] && b == [b[0]] + b[1..];
      StrLtLeTransitive(a[1..], b[1..], c[1..]);
      assert a[1..] != c[1..];
    }
  }
}
