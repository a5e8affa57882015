/** The string operations the Python code borrows from `str`, on ASCII text:
    `upper()`, `lower()`, `in`, `strip()`, `splitlines()`, `replace(x, "")` and the
    decimal rendering of a non-negative `int`. (Slicing is `Seqs.Prefix`.) */
module TextUtil {
  import opened Seqs

  function UpperChar(c: char): char
  {
    if 'a' <= c <= 'z' then (c as int - 32) as char else c
  }

  function LowerChar(c: char): char
  {
    if 'A' <= c <= 'Z' then (c as int + 32) as char else c
  }

  /** `s.upper()` restricted to ASCII letters. */
  function Upper(s: string): (r: string)
    ensures |r| == |s|
    ensures forall i :: 0 <= i < |s| ==> r[i] == UpperChar(s[i])
  {
    seq(|s|, i requires 0 <= i < |s| => UpperChar(s[i]))
  }

  /** `s.lower()` restricted to ASCII letters. */
  function Lower(s: string): (r: string)
    ensures |r| == |s|
    ensures forall i :: 0 <= i < |s| ==> r[i] == LowerChar(s[i])
  {
    seq(|s|, i requires 0 <= i < |s| => LowerChar(s[i]))
  }

  /** Python's `p in s` on strings. */
  function Contains(s: string, p: string): bool
  {
    p <= s || (s != [] && Contains(s[1..], p))
  }

  /** `p in s` holds exactly when p starts at some position of s. */
  lemma {:induction false} ContainsAt(s: string, p: string)
    ensures Contains(s, p) <==> exists i :: 0 <= i <= |s| && p <= s[i..]
  {
    if s != [] {
      ContainsAt(s[1..], p);
      if Contains(s[1..], p) {
        var i :| 0 <= i <= |s[1..]| && p <= s[1..][i..];
        assert s[1..][i..] == s[i + 1..];
      }
      if i :| 0 < i <= |s| && p <= s[i..] {
        assert s[1..][i - 1..] == s[i..];
      }
      assert s[0..] == s;
    } else {
      assert s[0..] == s;
    }
  }

  /** Whether s, read from position i in upper case, starts with w. */
  predicate MatchesAt(s: string, w: string, i: nat)
  {
    i + |w| <= |s| && Upper(s[i..i + |w|]) == w
  }

  /** Whether the ASCII upper-case word w occurs in s in any mix of cases. */
  ghost predicate OccursIgnoringCase(s: string, w: string)
  {
    exists i: nat :: MatchesAt(s, w, i)
  }

  /** `w in s.upper()` is a case-insensitive search for the upper-case word w. */
  lemma {:induction false} UpperContains(s: string, w: string)
    ensures Contains(Upper(s), w) <==> OccursIgnoringCase(s, w)
  {
    var u := Upper(s);
    ContainsAt(u, w);
    if Contains(u, w) {
      var i :| 0 <= i <= |u| && w <= u[i..];
      assert Upper(s[i..i + |w|]) == u[i..i + |w|] == w;
      assert MatchesAt(s, w, i);
    }
    if OccursIgnoringCase(s, w) {
      var i: nat :| MatchesAt(s, w, i);
      assert u[i..][..|w|] == Upper(s[i..i + |w|]);
    }
  }

  /** The characters Python's `str.strip()` removes (those `str.isspace()`
      accepts): tab to carriage return, the information separators 0x1C-0x1F,
      space, next line, no-break space and the Unicode space separators. */
  predicate IsSpace(c: char)
  {
    var k := c as int;
    9 <= k <= 13 || 28 <= k <= 32 || k == 0x85 || k == 0xA0 || k == 0x1680
    || 0x2000 <= k <= 0x200A || k == 0x2028 || k == 0x2029 || k == 0x202F || k == 0x205F || k == 0x3000
  }

  /** The first position at or after i that does not hold whitespace, or |s|. */
  function SkipSpaces(s: string, i: nat): (n: nat)
    requires i <= |s|
    ensures i <= n <= |s|
    ensures forall k :: i <= k < n ==> IsSpace(s[k])
    ensures n < |s| ==> !IsSpace(s[n])
    decreases |s| - i
  {
    if i < |s| && IsSpace(s[i]) then SkipSpaces(s, i + 1) else i
  }

  /** The end of s[lo..hi] once its trailing whitespace is dropped. */
  function BackOverSpaces(s: string, lo: nat, hi: nat): (n: nat)
    requires lo <= hi <= |s|
    ensures lo <= n <= hi
    ensures forall k :: n <= k < hi ==> IsSpace(s[k])
    ensures n > lo ==> !IsSpace(s[n - 1])
    decreases hi
  {
    if hi > lo && IsSpace(s[hi - 1]) then BackOverSpaces(s, lo, hi - 1) else hi
  }

  /** `s.strip()`: the infix of s between leading and trailing whitespace, which
      neither starts nor ends with whitespace. */
  function Strip(s: string): (r: string)
    ensures var i := SkipSpaces(s, 0);
      && i + |r| <= |s| && r == s[i..i + |r|]
      && (forall k :: 0 <= k < i ==> IsSpace(s[k]))
      && (forall k :: i + |r| <= k < |s| ==> IsSpace(s[k]))
    ensures r != [] ==> !IsSpace(r[0]) && !IsSpace(r[|r| - 1])
  {
    var i := SkipSpaces(s, 0);
    s[i..BackOverSpaces(s, i, |s|)]
  }

  /** Whitespace is all `strip()` removes: a string holding any other character
      strips to a non-empty string. */
  lemma {:induction false} StripNonEmpty(s: string, k: nat)
    requires k < |s| && !IsSpace(s[k])
    ensures Strip(s) != []
  {
  }

  /** The line boundaries of Python's `str.splitlines()`: line feed, carriage
      return, line tabulation, form feed, the separators 0x1C-0x1E, next line and
      the Unicode line and paragraph separators. */
  predicate IsLineBreak(c: char)
  {
    var k := c as int;
    10 <= k <= 13 || 28 <= k <= 30 || k == 0x85 || k == 0x2028 || k == 0x2029
  }

  /** Index of the first line boundary in s, or |s| when there is none. */
  function LineEnd(s: string): (n: nat)
    ensures n <= |s|
    ensures forall k :: 0 <= k < n ==> !IsLineBreak(s[k])
    ensures n < |s| ==> IsLineBreak(s[n])
  {
    if s == [] || IsLineBreak(s[0]) then 0 else 1 + LineEnd(s[1..])
  }

  /** Where the text after the boundary at n resumes: a carriage return followed
      by a line feed is one boundary. */
  function NextLine(s: string, n: nat): (m: nat)
    requires n < |s|
    ensures n < m <= |s|
  {
    if s[n] == '\r' && n + 1 < |s| && s[n + 1] == '\n' then n + 2 else n + 1
  }

  /** `s.splitlines()`: the text between boundaries; a final boundary does not
      open an empty last line, and the empty string has no lines. */
  function Lines(s: string): (ls: seq<string>)
    ensures forall k :: 0 <= k < |ls| ==> forall c :: c in ls[k] ==> !IsLineBreak(c)
    ensures s != [] <==> ls != []
    decreases |s|
  {
    if s == [] then []
    else
      var n := LineEnd(s);
      if n == |s| then [s] else [s[..n]] + Lines(s[NextLine(s, n)..])
  }

  /** Lines each followed by a line feed, one after another. */
  function Terminated(ls: seq<string>): string
  {
    if ls == [] then [] else ls[0] + "\n" + Terminated(ls[1..])
  }

  /** The first boundary of a text whose first line is a is right after a. */
  lemma {:induction false} LineEndAfter(a: string, rest: string)
    requires forall c :: c in a ==> !IsLineBreak(c)
    ensures LineEnd(a + "\n" + rest) == |a|
  {
    var s := a + "\n" + rest;
    assert forall k :: 0 <= k < |a| ==> s[k] == a[k] && a[k] in a;
    assert s[|a|] == '\n';
  }

  /** A first line ended by a line feed is split off as it is. */
  lemma {:induction false} LinesCons(a: string, rest: string)
    requires forall c :: c in a ==> !IsLineBreak(c)
    ensures Lines(a + "\n" + rest) == [a] + Lines(rest)
  {
    var s := a + "\n" + rest;
    LineEndAfter(a, rest);
    assert s[|a|] == '\n';
    assert NextLine(s, |a|) == |a| + 1;
    assert s[..|a|] == a;
    assert s[|a| + 1..] == rest;
  }

  /** A text without boundaries is one line, or none when empty. */
  lemma {:induction false} LinesSingle(last: string)
    requires forall c :: c in last ==> !IsLineBreak(c)
    ensures Lines(last) == if last == [] then [] else [last]
  {
    assert forall k :: 0 <= k < |last| ==> last[k] in last;
  }

  /** `splitlines()` gives back the lines a text was built from: joined with line
      feeds after each, and an optional last line without one, they split into
      exactly those lines, a final line feed opening no empty line. */
  lemma {:induction false} LinesRoundTrip(ls: seq<string>, last: string)
    requires forall k :: 0 <= k < |ls| ==> forall c :: c in ls[k] ==> !IsLineBreak(c)
    requires forall c :: c in last ==> !IsLineBreak(c)
    ensures Lines(Terminated(ls) + last) == ls + (if last == [] then [] else [last])
    decreases |ls|
  {
    if ls == [] {
      assert Terminated(ls) + last == last;
      LinesSingle(last);
    } else {
      var rest := Terminated(ls[1..]) + last;
      assert Terminated(ls) + last == ls[0] + "\n" + rest;
      LinesCons(ls[0], rest);
      LinesRoundTrip(ls[1..], last);
      assert ls == [ls[0]] + ls[1..];
    }
  }

  /** A string occurs in any string it is a suffix-tail of. */
  lemma {:induction false} ContainsInSuffix(s: string, m: nat, p: string)
    requires m <= |s| && Contains(s[m..], p)
    ensures Contains(s, p)
    decreases m
  {
    if m > 0 {
      assert s[1..][m - 1..] == s[m..];
      ContainsInSuffix(s[1..], m - 1, p);
    } else {
      assert s[0..] == s;
    }
  }

  /** Every line of s occurs in s. */
  lemma {:induction false} LineOccurs(s: string, k: nat)
    requires k < |Lines(s)|
    ensures Contains(s, Lines(s)[k])
    decreases |s|
  {
    var n := LineEnd(s);
    if k == 0 {
      assert Lines(s)[0] <= s;
    } else {
      var m := NextLine(s, n);
      LineOccurs(s[m..], k - 1);
      ContainsInSuffix(s, m, Lines(s)[k]);
    }
  }

  /** Python's `s.replace(p, "")`: every non-overlapping occurrence of p, found
      left to right, is deleted; replacing the empty string changes nothing. */
  function RemoveAll(s: string, p: string): (r: string)
    ensures |r| <= |s|
    decreases |s|
  {
    if p == [] || |s| < |p| then s
    else if p <= s then RemoveAll(s[|p|..], p)
    else [s[0]] + RemoveAll(s[1..], p)
  }

  /** Without an occurrence of p nothing is deleted. */
  lemma {:induction false} RemoveAbsent(s: string, p: string)
    requires !Contains(s, p)
    ensures RemoveAll(s, p) == s
    decreases |s|
  {
    if p != [] && |s| >= |p| {
      RemoveAbsent(s[1..], p);
      assert [s[0]] + s[1..] == s;
    }
  }

  /** An occurrence of p at the start of a + p + b, with a non-empty, already
      lies within a and all of p but its last character. */
  lemma {:induction false} EarlyOccurrence(a: string, p: string, b: string)
    requires a != [] && p != [] && p <= a + p + b
    ensures Contains(a + p[..|p| - 1], p)
  {
    var u := a + p[..|p| - 1];
    var v := [p[|p| - 1]] + b;
    assert p == p[..|p| - 1] + [p[|p| - 1]];
    AppendAssoc(a, p[..|p| - 1], [p[|p| - 1]]);
    AppendAssoc(u, [p[|p| - 1]], b);
    assert a + p + b == u + v;
    assert p == (u + v)[..|p|] == u[..|p|];
  }

  /** Where p does not start, the first character is kept. */
  lemma {:induction false} RemoveKeeps(s: string, p: string)
    requires p != [] && |p| <= |s| && !(p <= s)
    ensures RemoveAll(s, p) == [s[0]] + RemoveAll(s[1..], p)
  {
  }

  /** Where p starts, it is deleted. */
  lemma {:induction false} RemoveDeletes(p: string, b: string)
    requires p != []
    ensures RemoveAll(p + b, p) == RemoveAll(b, p)
  {
    assert p <= p + b;
    assert (p + b)[|p|..] == b;
  }

  /** No earlier occurrence before a, so none before a[1..] either. */
  lemma {:induction false} NoEarlierOccurrence(a: string, p: string)
    requires a != [] && p != [] && !Contains(a + p[..|p| - 1], p)
    ensures !Contains(a[1..] + p[..|p| - 1], p)
  {
    var t := a + p[..|p| - 1];
    assert t[1..] == a[1..] + p[..|p| - 1];
  }

  /** The deletion is leftmost and non-overlapping: when p first occurs right
      after a, a is kept, that occurrence is deleted, and the deletion carries on
      after it. */
  lemma {:induction false} RemoveStep(a: string, p: string, b: string)
    requires p != [] && !Contains(a + p[..|p| - 1], p)
    ensures RemoveAll(a + p + b, p) == a + RemoveAll(b, p)
    decreases |a|
  {
    if a == [] {
      assert a + p + b == p + b;
      RemoveDeletes(p, b);
    } else {
      var s := a + p + b;
      if p <= s {
        EarlyOccurrence(a, p, b);
      }
      RemoveKeeps(s, p);
      assert s[1..] == a[1..] + p + b;
      NoEarlierOccurrence(a, p);
      RemoveStep(a[1..], p, b);
      assert a == [a[0]] + a[1..];
    }
  }

  /** A string only occurs in strings at least as long. */
  lemma {:induction false} ContainsLength(s: string, p: string)
    requires Contains(s, p)
    ensures |p| <= |s|
  {
    if !(p <= s) {
      ContainsLength(s[1..], p);
    }
  }

  /** With an occurrence of a non-empty p at least |p| characters are deleted. */
  lemma {:induction false} RemovePresent(s: string, p: string)
    requires p != [] && Contains(s, p)
    ensures |RemoveAll(s, p)| <= |s| - |p|
    decreases |s|
  {
    ContainsLength(s, p);
    if !(p <= s) {
      RemovePresent(s[1..], p);
    }
  }

  function DigitChar(d: nat): (c: char)
    requires d < 10
    ensures '0' <= c <= '9'
  {
    ('0' as int + d) as char
  }

  /** Python's `f"{n}"` for n >= 0: decimal digits, most significant first. */
  function Decimal(n: nat): (s: string)
    ensures s != []
    ensures forall k :: 0 <= k < |s| ==> '0' <= s[k] <= '9'
    ensures n > 0 ==> s[0] != '0'
  {
    if n < 10 then [DigitChar(n)] else Decimal(n / 10) + [DigitChar(n % 10)]
  }

  /** The value of a string of decimal digits. */
  function DecimalValue(s: string): nat
    requires forall k :: 0 <= k < |s| ==> '0' <= s[k] <= '9'
  {
    if s == [] then 0
    else DecimalValue(s[..|s| - 1]) * 10 + (s[|s| - 1] as int - '0' as int)
  }

  /** Reading back the rendered digits gives the number. */
  lemma {:induction false} DecimalRoundTrip(n: nat)
    ensures DecimalValue(Decimal(n)) == n
  {
    if n >= 10 {
      DecimalRoundTrip(n / 10);
      var s := Decimal(n);
      assert s[..|s| - 1] == Decimal(n / 10);
    }
  }
}
