/** The handful of Python `str` operations the link helpers are built from,
    stated over `string` (a `seq<char>`).  Each strip takes a SET of
    characters, as Python's `strip`/`lstrip` do: the argument string is read
    as an unordered collection of characters, not as a literal prefix. */
module PyStr {

  /** `s.startswith(prefix)`. */
  predicate StartsWith(s: string, prefix: string) {
    |prefix| <= |s| && s[..|prefix|] == prefix
  }

  /** `r` is what is left of `s` after dropping some leading characters,
      all of them from `chars`. */
  predicate TrimmedFrom(r: string, s: string, chars: set<char>) {
    && |r| <= |s|
    && r == s[|s| - |r|..]
    && forall i :: 0 <= i < |s| - |r| ==> s[i] in chars
  }

  /** `r` is what is left of `s` after dropping some trailing characters,
      all of them from `chars`. */
  predicate TrimmedTo(r: string, s: string, chars: set<char>) {
    && |r| <= |s|
    && r == s[..|r|]
    && forall i :: |r| <= i < |s| ==> s[i] in chars
  }

  /** A string that differs from `prefix` at some position of `prefix`, or
      is too short to reach it, does not start with `prefix`. */
  lemma NotStartsWith(s: string, prefix: string, i: nat)
    requires i < |prefix| && (i < |s| ==> s[i] != prefix[i])
    ensures !StartsWith(s, prefix)
  {
    if |prefix| <= |s| {
      assert s[..|prefix|][i] == s[i];
    }
  }

  /** `s.lstrip(chars)`. */
  function LStrip(s: string, chars: set<char>): string {
    if |s| > 0 && s[0] in chars then LStrip(s[1..], chars) else s
  }

  /** `s.rstrip(chars)`. */
  function RStrip(s: string, chars: set<char>): string {
    if |s| > 0 && s[|s| - 1] in chars then RStrip(s[..|s| - 1], chars) else s
  }

  /** `s.strip(chars)`. */
  function Strip(s: string, chars: set<char>): string {
    RStrip(LStrip(s, chars), chars)
  }

  /** Dropping leading characters keeps the last one. */
  lemma TrimmedFromKeepsLast(r: string, s: string, chars: set<char>)
    requires TrimmedFrom(r, s, chars) && r != []
    ensures r[|r| - 1] == s[|s| - 1]
  {
    assert r[|r| - 1] == s[|s| - |r|..][|r| - 1];
  }

  /** `lstrip` drops the longest leading run of characters from `chars`:
      only such characters go, and what is left does not start with one. */
  lemma {:induction false} LStripSpec(s: string, chars: set<char>)
    ensures var r := LStrip(s, chars);
      TrimmedFrom(r, s, chars) && (r == [] || r[0] !in chars)
  {
    if |s| > 0 && s[0] in chars {
      LStripSpec(s[1..], chars);
      var r := LStrip(s[1..], chars);
      assert s[1..][|s| - 1 - |r|..] == s[|s| - |r|..];
    }
  }

  /** `rstrip` drops the longest trailing run of characters from `chars`. */
  lemma {:induction false} RStripSpec(s: string, chars: set<char>)
    ensures var r := RStrip(s, chars);
      TrimmedTo(r, s, chars) && (r == [] || r[|r| - 1] !in chars)
  {
    if |s| > 0 && s[|s| - 1] in chars {
      RStripSpec(s[..|s| - 1], chars);
      var r := RStrip(s[..|s| - 1], chars);
      assert s[..|s| - 1][..|r|] == s[..|r|];
    }
  }

  /** Trailing characters from `chars` make no difference to `rstrip`. */
  lemma {:induction false} RStripPastSuffix(s: string, suffix: string, chars: set<char>)
    requires forall i :: 0 <= i < |suffix| ==> suffix[i] in chars
    ensures RStrip(s + suffix, chars) == RStrip(s, chars)
  {
    if suffix != [] {
      var shorter := suffix[..|suffix| - 1];
      assert (s + suffix)[..|s + suffix| - 1] == s + shorter;
      RStripPastSuffix(s, shorter, chars);
    } else {
      assert s + suffix == s;
    }
  }

  /** `strip` of a string that neither starts nor ends with a character of
      `chars`, followed by any run of them, gives back the string. */
  lemma StripTrailingRun(s: string, suffix: string, chars: set<char>)
    requires s != [] && s[0] !in chars && s[|s| - 1] !in chars
    requires forall i :: 0 <= i < |suffix| ==> suffix[i] in chars
    ensures Strip(s + suffix, chars) == s
  {
    assert (s + suffix)[0] == s[0];
    RStripPastSuffix(s, suffix, chars);
  }

  /** `lstrip` eats a leading run of `chars` and stops at the first
      character outside them. */
  lemma LStripRun(run: string, rest: string, chars: set<char>)
    requires forall i :: 0 <= i < |run| ==> run[i] in chars
    requires rest != [] && rest[0] !in chars
    ensures LStrip(run + rest, chars) == rest
  {
    assert (run + rest)[..|run|] == run && (run + rest)[|run|..] == rest;
    LStripPastPrefix(run + rest, run, chars);
  }

  /** `strip` drops a run of `chars` at each end and leaves a string that
      neither starts nor ends with one of them. */
  lemma StripSpec(s: string, chars: set<char>)
    ensures var m := LStrip(s, chars); var r := Strip(s, chars);
      && TrimmedFrom(m, s, chars)
      && TrimmedTo(r, m, chars)
      && (r == [] || (r[0] !in chars && r[|r| - 1] !in chars))
  {
    var m := LStrip(s, chars);
    LStripSpec(s, chars);
    RStripSpec(m, chars);
    var r := Strip(s, chars);
    if r != [] {
      assert r[0] == m[0];
    }
  }

  /** `c.lower()` for ASCII letters; every other character is left alone. */
  function Lower(c: char): char {
    if 'A' <= c <= 'Z' then (c as int - 'A' as int + 'a' as int) as char else c
  }

  function LowerStr(s: string): string {
    seq(|s|, i requires 0 <= i < |s| => Lower(s[i]))
  }

  /** `s[-n:]`: the last `min(n, |s|)` characters. */
  function Last(s: string, n: nat): string {
    if |s| <= n then s else s[|s| - n..]
  }

  /** Prefixing is transitive. */
  lemma StartsWithTrans(a: string, b: string, c: string)
    requires StartsWith(a, b) && StartsWith(b, c)
    ensures StartsWith(a, c)
  {
    assert a[..|c|] == a[..|b|][..|c|];
  }

  /** Leading trims compose, dropping characters from either set. */
  lemma TrimmedFromTrans(a: string, b: string, c: string, x: set<char>, y: set<char>)
    requires TrimmedFrom(a, b, x) && TrimmedFrom(b, c, y)
    ensures TrimmedFrom(a, c, x + y)
  {
    forall i | 0 <= i < |c| - |a|
      ensures c[i] in x + y
    {
      if i >= |c| - |b| {
        assert c[i] == b[i - (|c| - |b|)];
      }
    }
  }

  /** When `s` starts with `prefix` and every character of `prefix` is in
      `chars`, `lstrip` runs straight through the prefix. */
  lemma {:induction false} LStripPastPrefix(s: string, prefix: string, chars: set<char>)
    requires StartsWith(s, prefix)
    requires forall i :: 0 <= i < |prefix| ==> prefix[i] in chars
    ensures LStrip(s, chars) == LStrip(s[|prefix|..], chars)
  {
    if prefix != [] {
      assert s[0] == prefix[0];
      assert s[0] in chars;
      assert s[1..][..|prefix| - 1] == prefix[1..];
      LStripPastPrefix(s[1..], prefix[1..], chars);
      assert s[1..][|prefix| - 1..] == s[|prefix|..];
    }
  }
}
