// ASCII models of the two string operations the attendance check applies to
// employee identifiers: String.prototype.trim and String.prototype.toLowerCase.

module AsciiText {

  /** The white-space and line-terminator characters that `trim` removes,
      restricted to ASCII: tab, line feed, vertical tab, form feed,
      carriage return and space. */
  predicate IsSpace(c: char) {
    c == '\t' || c == '\n' || c == '\U{B}' || c == '\U{C}' || c == '\r' || c == ' '
  }

  predicate AllSpace(s: string) {
    forall i :: 0 <= i < |s| ==> IsSpace(s[i])
  }

  /** ASCII case folding of one character. */
  function LowerChar(c: char): char {
    if 'A' <= c <= 'Z' then (c as int - 'A' as int + 'a' as int) as char else c
  }

  /** `toLowerCase` on ASCII: every character is folded, in place. */
  function Lower(s: string): string {
    seq(|s|, i requires 0 <= i < |s| => LowerChar(s[i]))
  }

  /** Drops the leading white space: the result is no longer than `s` and
      does not start with space. */
  function TrimStart(s: string): (r: string)
    ensures |r| <= |s|
    ensures r == [] || !IsSpace(r[0])
    decreases |s|
  {
    if s != [] && IsSpace(s[0]) then TrimStart(s[1..]) else s
  }

  /** Drops the trailing white space: the result is no longer than `s` and
      does not end with space. */
  function TrimEnd(s: string): (r: string)
    ensures |r| <= |s|
    ensures r == [] || !IsSpace(r[|r| - 1])
    decreases |s|
  {
    if s != [] && IsSpace(s[|s| - 1]) then TrimEnd(s[..|s| - 1]) else s
  }

  /** `trim`: white space removed from both ends. */
  function Trim(s: string): string {
    TrimEnd(TrimStart(s))
  }

  /** TrimStart keeps a suffix of its input and drops only white space. */
  lemma {:induction false} TrimStartDropsLeadingSpace(s: string)
    ensures TrimStart(s) == s[|s| - |TrimStart(s)|..]
    ensures AllSpace(s[..|s| - |TrimStart(s)|])
    decreases |s|
  {
    if s != [] && IsSpace(s[0]) {
      TrimStartDropsLeadingSpace(s[1..]);
      var n := |s| - |TrimStart(s)|;
      assert s[1..][n - 1..] == s[n..];
      assert forall i :: 1 <= i < n ==> s[..n][i] == s[1..][..n - 1][i - 1];
    }
  }

  /** TrimEnd keeps a prefix of its input and drops only white space. */
  lemma {:induction false} TrimEndDropsTrailingSpace(s: string)
    ensures TrimEnd(s) == s[..|TrimEnd(s)|]
    ensures AllSpace(s[|TrimEnd(s)|..])
    decreases |s|
  {
    if s != [] && IsSpace(s[|s| - 1]) {
      var t := s[..|s| - 1];
      TrimEndDropsTrailingSpace(t);
      var m := |TrimEnd(s)|;
      assert t[..m] == s[..m];
      assert forall i :: m <= i < |s| - 1 ==> s[i] == t[m..][i - m];
    }
  }

  /** A piece taken from the front of a suffix splits the whole in three. */
  lemma SplitInThree(s: string, t: string, r: string, n: nat, m: nat)
    requires n <= |s| && t == s[n..] && m <= |t| && r == t[..m]
    ensures s == s[..n] + r + s[n + m..]
    ensures t[m..] == s[n + m..]
  {
    assert s == s[..n] + t;
    assert t == r + t[m..];
  }

  /** `trim` splits its input into white space, the result and white space. */
  lemma TrimSplits(s: string)
    ensures var n := |s| - |TrimStart(s)|;
            && s == s[..n] + Trim(s) + s[n + |Trim(s)|..]
            && AllSpace(s[..n]) && AllSpace(s[n + |Trim(s)|..])
  {
    var t := TrimStart(s);
    TrimStartDropsLeadingSpace(s);
    TrimEndDropsTrailingSpace(t);
    SplitInThree(s, t, Trim(s), |s| - |t|, |Trim(s)|);
  }

  /** The result of `trim` neither starts nor ends with white space. */
  lemma TrimHasNoSpaceAtEnds(s: string)
    ensures Trim(s) == [] || (!IsSpace(Trim(s)[0]) && !IsSpace(Trim(s)[|Trim(s)| - 1]))
  {
    var t := TrimStart(s);
    TrimEndDropsTrailingSpace(t);
    if Trim(s) != [] {
      assert Trim(s)[0] == t[0];
    }
  }

  /** Leading white space is dropped whatever follows it. */
  lemma {:induction false} TrimStartSkipsSpace(a: string, t: string)
    requires AllSpace(a)
    ensures TrimStart(a + t) == TrimStart(t)
    decreases |a|
  {
    if a == [] {
      assert a + t == t;
    } else {
      assert (a + t)[0] == a[0];
      assert (a + t)[1..] == a[1..] + t;
      TrimStartSkipsSpace(a[1..], t);
    }
  }

  /** Trailing white space is dropped whatever precedes it. */
  lemma {:induction false} TrimEndSkipsSpace(t: string, b: string)
    requires AllSpace(b)
    ensures TrimEnd(t + b) == TrimEnd(t)
    decreases |b|
  {
    if b == [] {
      assert t + b == t;
    } else {
      assert (t + b)[|t + b| - 1] == b[|b| - 1];
      assert (t + b)[..|t + b| - 1] == t + b[..|b| - 1];
      TrimEndSkipsSpace(t, b[..|b| - 1]);
    }
  }

  /** Once TrimStart reaches a non-space character, what follows is kept
      verbatim; if it drops everything, appending white space changes
      nothing. */
  lemma {:induction false} TrimStartAppend(x: string, q: string)
    requires AllSpace(q)
    ensures TrimStart(x + q) == if TrimStart(x) == [] then [] else TrimStart(x) + q
    decreases |x|
  {
    if x == [] {
      assert x + q == q + [];
      TrimStartSkipsSpace(q, []);
    } else {
      assert (x + q)[0] == x[0];
      if IsSpace(x[0]) {
        assert (x + q)[1..] == x[1..] + q;
        TrimStartAppend(x[1..], q);
      }
    }
  }

  /** Surrounding white space does not change the trimmed form. */
  lemma TrimIgnoresPadding(p: string, x: string, q: string)
    requires AllSpace(p) && AllSpace(q)
    ensures Trim(p + x + q) == Trim(x)
  {
    assert p + x + q == p + (x + q);
    TrimStartSkipsSpace(p, x + q);
    TrimStartAppend(x, q);
    if TrimStart(x) != [] {
      TrimEndSkipsSpace(TrimStart(x), q);
    }
  }

  lemma LowerCharKeepsSpace(c: char)
    ensures IsSpace(LowerChar(c)) == IsSpace(c)
  {
  }

  /** Case folding commutes with dropping leading white space. */
  lemma {:induction false} LowerTrimStart(s: string)
    ensures Lower(TrimStart(s)) == TrimStart(Lower(s))
    decreases |s|
  {
    if s != [] {
      LowerCharKeepsSpace(s[0]);
      assert Lower(s)[0] == LowerChar(s[0]);
      if IsSpace(s[0]) {
        assert Lower(s)[1..] == Lower(s[1..]);
        LowerTrimStart(s[1..]);
      }
    }
  }

  /** Case folding commutes with dropping trailing white space. */
  lemma {:induction false} LowerTrimEnd(s: string)
    ensures Lower(TrimEnd(s)) == TrimEnd(Lower(s))
    decreases |s|
  {
    if s != [] {
      LowerCharKeepsSpace(s[|s| - 1]);
      assert Lower(s)[|s| - 1] == LowerChar(s[|s| - 1]);
      if IsSpace(s[|s| - 1]) {
        assert Lower(s)[..|s| - 1] == Lower(s[..|s| - 1]);
        LowerTrimEnd(s[..|s| - 1]);
      }
    }
  }

  /** Trimming and case folding commute. */
  lemma TrimLowerCommute(s: string)
    ensures Lower(Trim(s)) == Trim(Lower(s))
  {
    LowerTrimEnd(TrimStart(s));
    LowerTrimStart(s);
  }
}
