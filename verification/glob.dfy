/** The glob matcher `strglob` of mptest.c. */
module Glob {

  const NUL := '\0'

  function At(s: string, i: nat): char { if i < |s| then s[i] else NUL }

  predicate IsDigit(c: char) { '0' <= c <= '9' }

  predicate NoNul(s: string) { forall k :: 0 <= k < |s| ==> s[k] != NUL }

  // ---- Character classes ----

  /** Past the `]` that closes the class whose items start at `i`, or the length plus one when
      there is none.  An item is one character, or a range `x-y` whose `y` is not the `]`. */
  function ItemsEnd(p: string, i: nat): (e: nat)
    ensures i <= |p| ==> i < e
    decreases |p| - i
  {
    if i >= |p| then |p| + 1
    else if p[i] == ']' then i + 1
    else if IsRange(p, i) then ItemsEnd(p, i + 3)
    else ItemsEnd(p, i + 1)
  }

  predicate IsRange(p: string, i: nat)
  {
    i + 2 < |p| && p[i + 1] == '-' && p[i + 2] != ']'
  }

  /** Some item from `i` on has `c`. */
  predicate HasItem(p: string, i: nat, c: char)
    decreases |p| - i
  {
    if i >= |p| || p[i] == ']' then false
    else if IsRange(p, i) then c == p[i] || p[i] <= c <= p[i + 2] || HasItem(p, i + 3, c)
    else c == p[i] || HasItem(p, i + 1, c)
  }

  /** Where the items of the class at `i` start: past `[`, `^` and a `]` that comes first. */
  function FirstItem(p: string, i: nat): (r: nat)
    ensures i < |p| ==> i < r <= |p|
  {
    var a := AfterCaret(p, i);
    if At(p, a) == ']' then a + 1 else a
  }

  function AfterCaret(p: string, i: nat): nat { if At(p, i + 1) == '^' then i + 2 else i + 1 }

  function ClassEnd(p: string, i: nat): nat { ItemsEnd(p, FirstItem(p, i)) }

  /** The class at `i` is closed and matches `c`. */
  predicate InClass(p: string, i: nat, c: char)
  {
    && ClassEnd(p, i) <= |p|
    && (At(p, i + 1) == '^') !=
       ((c == ']' && At(p, AfterCaret(p, i)) == ']') || HasItem(p, FirstItem(p, i), c))
  }

  // ---- Numbers ----

  function DigitsEnd(z: string, j: nat): (e: nat)
    ensures j <= e && (j <= |z| ==> e <= |z|)
    decreases |z| - j
  {
    if IsDigit(At(z, j)) then DigitsEnd(z, j + 1) else j
  }

  /** Past the sign before a digit. */
  function AfterSign(z: string, j: nat): nat
  {
    if (At(z, j) == '-' || At(z, j) == '+') && IsDigit(At(z, j + 1)) then j + 1 else j
  }

  // ---- What the rules in the comment of the function say ----

  /** `z` from `j` on matches the pattern from `i` on.  `#` takes an optional sign and then one or
      more digits; if `greedy`, as many as there are.  The comment asks for any number of digits,
      the function takes them all. */
  ghost predicate Match(p: string, i: nat, z: string, j: nat, greedy: bool)
    decreases |p| - i, 0
  {
    if i >= |p| then j == |z|
    else if p[i] == '*' then MatchLater(p, i + 1, z, j, greedy)
    else if p[i] == '?' then j < |z| && Match(p, i + 1, z, j + 1, greedy)
    else if p[i] == '[' then j < |z| && InClass(p, i, z[j]) && Match(p, ClassEnd(p, i), z, j + 1, greedy)
    else if p[i] == '#' then
      MatchNumber(p, i + 1, z, AfterSign(z, j), greedy)
    else j < |z| && z[j] == p[i] && Match(p, i + 1, z, j + 1, greedy)
  }

  /** Some tail of the string from `j` on matches. */
  ghost predicate MatchLater(p: string, i: nat, z: string, j: nat, greedy: bool)
    decreases |p| - i, 1
  {
    exists k :: j <= k <= |z| && Match(p, i, z, k, greedy)
  }

  /** Digits from `d` on, and a tail behind them that matches. */
  ghost predicate MatchNumber(p: string, i: nat, z: string, d: nat, greedy: bool)
    decreases |p| - i, 1
  {
    exists e :: d < e <= DigitsEnd(z, d) && (greedy ==> e == DigitsEnd(z, d)) && Match(p, i, z, e, greedy)
  }

  // ---- What the function computes ----

  /** Past a run of `*` and `?`. */
  function RunEnd(p: string, i: nat): (k: nat)
    ensures i <= k && (i <= |p| ==> k <= |p|)
    ensures At(p, k) != '*' && At(p, k) != '?'
    decreases |p| - i
  {
    if At(p, i) == '*' || At(p, i) == '?' then RunEnd(p, i + 1) else i
  }

  function Marks(p: string, i: nat): nat
    decreases |p| - i
  {
    if At(p, i) == '*' then Marks(p, i + 1)
    else if At(p, i) == '?' then 1 + Marks(p, i + 1)
    else 0
  }

  /** The result of `strglob` on the pattern from `i` on and the string from `j` on.  Behind a
      star run, a class is taken the wrong way round and a `#` is taken literally. */
  ghost predicate Globs(p: string, i: nat, z: string, j: nat)
    decreases |p| - i, 0
  {
    if i >= |p| then j == |z|
    else if p[i] == '*' then
      var k := RunEnd(p, i + 1);
      var m := j + Marks(p, i + 1);
      m <= |z| && (
        k >= |p| || if p[k] == '[' then Mismatches(p, k, z, m) else Matches(p, k, z, m))
    else if p[i] == '?' then j < |z| && Globs(p, i + 1, z, j + 1)
    else if p[i] == '[' then
      j < |z| && InClass(p, i, z[j]) && Globs(p, ClassEnd(p, i), z, j + 1)
    else if p[i] == '#' then
      var d := AfterSign(z, j);
      IsDigit(At(z, d)) && Globs(p, i + 1, z, DigitsEnd(z, d))
    else j < |z| && z[j] == p[i] && Globs(p, i + 1, z, j + 1)
  }

  /** The class at `k`, and all behind it, fails somewhere from `m` on. */
  ghost predicate Mismatches(p: string, k: nat, z: string, m: nat)
    decreases |p| - k, 1
  {
    exists n :: m <= n < |z| && !Globs(p, k, z, n)
  }

  /** The character at `k`, and all behind it, is found somewhere from `m` on. */
  ghost predicate Matches(p: string, k: nat, z: string, m: nat)
    requires k < |p|
    decreases |p| - k, 1
  {
    exists n :: m <= n < |z| && z[n] == p[k] && Globs(p, k + 1, z, n + 1)
  }

  /** No star run of the pattern is followed by a class or a `#`. */
  predicate Regular(p: string, i: nat)
    decreases |p| - i
  {
    if i >= |p| then true
    else if p[i] == '*' then
      var k := RunEnd(p, i + 1);
      At(p, k) != '[' && At(p, k) != '#' && Regular(p, k)
    else if p[i] == '[' then ClassEnd(p, i) <= |p| ==> Regular(p, ClassEnd(p, i))
    else Regular(p, i + 1)
  }

  /** A star run takes at least as many characters as it has `?`. */
  lemma {:induction false} RunMatches(p: string, i: nat, z: string, j: nat, g: bool)
    requires j <= |z|
    ensures MatchLater(p, i, z, j, g) <==> MatchLater(p, RunEnd(p, i), z, j + Marks(p, i), g)
    decreases |p| - i
  {
    if At(p, i) == '*' {
      RunMatches(p, i + 1, z, j, g);
      forall k | j <= k <= |z| && Match(p, i, z, k, g) ensures MatchLater(p, i + 1, z, j, g) {
        assert MatchLater(p, i + 1, z, k, g);
      }
      if MatchLater(p, i + 1, z, j, g) {
        assert Match(p, i, z, j, g);
      }
    } else if At(p, i) == '?' {
      if j < |z| {
        RunMatches(p, i + 1, z, j + 1, g);
        if MatchLater(p, i + 1, z, j + 1, g) {
          var n :| j + 1 <= n <= |z| && Match(p, i + 1, z, n, g);
          assert Match(p, i, z, n - 1, g);
        }
      }
      forall k | j <= k <= |z| && Match(p, i, z, k, g) ensures MatchLater(p, i + 1, z, j + 1, g) {
        assert Match(p, i + 1, z, k + 1, g);
      }
    }
  }

  /** On regular patterns, the function does what the rules say, if `#` takes all digits. */
  lemma {:induction false} GlobsIsMatch(p: string, i: nat, z: string, j: nat)
    requires NoNul(p) && NoNul(z) && Regular(p, i) && j <= |z|
    ensures Globs(p, i, z, j) <==> Match(p, i, z, j, true)
    decreases |p| - i
  {
    if i >= |p| {
    } else if p[i] == '*' {
      var k := RunEnd(p, i + 1);
      var m := j + Marks(p, i + 1);
      RunMatches(p, i + 1, z, j, true);
      if k < |p| {
        forall n | m <= n < |z| && z[n] == p[k]
          ensures Globs(p, k + 1, z, n + 1) <==> Match(p, k, z, n, true)
        {
          GlobsIsMatch(p, k + 1, z, n + 1);
        }
      } else if m <= |z| {
        assert Match(p, k, z, |z|, true);
      }
    } else if p[i] == '?' {
      if j < |z| { GlobsIsMatch(p, i + 1, z, j + 1); }
    } else if p[i] == '[' {
      if j < |z| && InClass(p, i, z[j]) { GlobsIsMatch(p, ClassEnd(p, i), z, j + 1); }
    } else if p[i] == '#' {
      var d := AfterSign(z, j);
      if IsDigit(At(z, d)) { GlobsIsMatch(p, i + 1, z, DigitsEnd(z, d)); }
    } else if j < |z| {
      GlobsIsMatch(p, i + 1, z, j + 1);
    }
  }

  /** Behind a star, a class and a `#` are taken differently from what the rules say. */
  lemma {:induction false} StarClassDiffers(g: bool)
    ensures Globs("*[a]", 0, "b", 0) && !Match("*[a]", 0, "b", 0, g)
    ensures !Globs("*[a]", 0, "a", 0) && Match("*[a]", 0, "a", 0, g)
  {
    var p := "*[a]";
    assert RunEnd(p, 1) == 1 && Marks(p, 1) == 0;
    assert ItemsEnd(p, 2) == 4 by { assert ItemsEnd(p, 3) == 4; }
    assert ClassEnd(p, 1) == 4;
    assert HasItem(p, 2, 'a') && !HasItem(p, 2, 'b') by { assert !HasItem(p, 3, 'b'); }
    assert Match(p, 4, "a", 1, g);
    assert Match(p, 1, "a", 0, g);
    assert Globs(p, 1, "a", 0);
    assert !Globs(p, 1, "b", 0);
  }

  lemma {:induction false} StarNumberDiffers(g: bool)
    ensures !Globs("*#", 0, "1", 0) && Match("*#", 0, "1", 0, g)
    ensures Globs("*#", 0, "#", 0) && !Match("*#", 0, "#", 0, g)
  {
    var p := "*#";
    assert RunEnd(p, 1) == 1 && Marks(p, 1) == 0;
    assert DigitsEnd("1", 0) == 1 by { assert DigitsEnd("1", 1) == 1; }
    assert Match(p, 2, "1", 1, g);
    assert Match(p, 1, "1", 0, g);
    assert Globs(p, 2, "#", 1);
    assert "#"[0] == p[1];
  }

  // ---- The matcher ----

  /** With `prior` read, which may start a range, the items from `q` on have `c`. */
  ghost predicate Left(p: string, q: nat, prior: char, c: char)
  {
    if prior != NUL && q + 1 < |p| && p[q] == '-' && p[q + 1] != ']' then
      prior <= c <= p[q + 1] || HasItem(p, q + 2, c)
    else HasItem(p, q, c)
  }

  ghost function LeftEnd(p: string, q: nat, prior: char): nat
  {
    if prior != NUL && q + 1 < |p| && p[q] == '-' && p[q + 1] != ']' then ItemsEnd(p, q + 2) else ItemsEnd(p, q)
  }

  /** The part of `strglob` that compares a character with the class whose `[` is at `i`: where
      the class ends, and whether it matches. */
  method ReadClass(p: string, i: nat, c: char) returns (end: nat, matches: bool)
    requires NoNul(p) && i < |p| && p[i] == '[' && c != NUL
    ensures matches == InClass(p, i, c)
    ensures matches ==> end == ClassEnd(p, i)
  {
    var invert, seen, prior := false, false, NUL;
    var q := i + 1;  // where c2 stands: zGlob - 1
    if At(p, q) == '^' {
      invert := true;
      q := q + 1;
    }
    if At(p, q) == ']' {
      if c == ']' { seen := true; }
      q := q + 1;
    }
    ghost var had := seen;
    while At(p, q) != NUL && At(p, q) != ']'
      invariant q <= |p|
      invariant LeftEnd(p, q, prior) == ClassEnd(p, i)
      invariant seen || Left(p, q, prior, c) <==> had || HasItem(p, FirstItem(p, i), c)
      decreases |p| - q
    {
      if At(p, q) == '-' && At(p, q + 1) != ']' && At(p, q + 1) != NUL && prior != NUL {
        if prior <= c <= At(p, q + 1) { seen := true; }
        prior := NUL;
        q := q + 2;
      } else {
        if c == At(p, q) { seen := true; }
        prior := At(p, q);
        q := q + 1;
      }
    }
    end := q + 1;
    matches := At(p, q) != NUL && seen != invert;
  }

  /** The loop that looks for a place where the rest of the pattern does not match: what
      `strglob` does when a star run is followed by a class. */
  method FindMismatch(p: string, k: nat, z: string, from: nat) returns (found: bool)
    requires NoNul(p) && NoNul(z) && k < |p| && p[k] == '[' && from <= |z|
    ensures found <==> Mismatches(p, k, z, from)
    decreases |p| - k, 3
  {
    var m := from;
    while m < |z|
      invariant from <= m <= |z|
      invariant forall n :: from <= n < m ==> Globs(p, k, z, n)
    {
      var matches := Strglob(p, k, z, m);
      if !matches { break; }
      m := m + 1;
    }
    found := m < |z|;
  }

  /** The loop that looks for a place where the character behind a star run and then the rest of
      the pattern match. */
  method FindMatch(p: string, k: nat, z: string, from: nat) returns (found: bool)
    requires NoNul(p) && NoNul(z) && k < |p| && from <= |z|
    ensures found <==> Matches(p, k, z, from)
    decreases |p| - k, 0
  {
    var m := from;
    while m < |z|
      invariant from <= m <= |z|
      invariant forall n :: from <= n < m && z[n] == p[k] ==> !Globs(p, k + 1, z, n + 1)
    {
      while z[m] != p[k]
        invariant m < |z|
        invariant forall n :: from <= n < m && z[n] == p[k] ==> !Globs(p, k + 1, z, n + 1)
        decreases |z| - m
      {
        m := m + 1;
        if m == |z| { return false; }
      }
      m := m + 1;
      var matches := Strglob(p, k + 1, z, m);
      if matches { return true; }
    }
    found := false;
  }

  /** `strglob` of the pattern from `i0` on and the string from `j0` on. */
  method Strglob(p: string, i0: nat, z: string, j0: nat) returns (r: bool)
    requires NoNul(p) && NoNul(z) && i0 <= |p| && j0 <= |z|
    ensures r <==> Globs(p, i0, z, j0)
    ensures Regular(p, i0) ==> (r <==> Match(p, i0, z, j0, true))
    decreases |p| - i0, 2
  {
    if Regular(p, i0) { GlobsIsMatch(p, i0, z, j0); }
    var i: nat, j: nat := i0, j0;
    while i < |p|
      invariant i0 <= i <= |p| && j <= |z|
      invariant Globs(p, i, z, j) <==> Globs(p, i0, z, j0)
      decreases |p| - i
    {
      var c := p[i];
      if c == '*' {
        var k: nat, m: nat := i + 1, j;
        while At(p, k) == '*' || At(p, k) == '?'
          invariant i < k <= |p| && j <= m <= |z|
          invariant RunEnd(p, k) == RunEnd(p, i + 1) && m + Marks(p, k) == j + Marks(p, i + 1)
          decreases |p| - k
        {
          if At(p, k) == '?' {
            if m == |z| { return false; }
            m := m + 1;
          }
          k := k + 1;
        }
        assert k == RunEnd(p, i + 1) && m == j + Marks(p, i + 1);
        if k == |p| { return true; }
        if p[k] == '[' {
          r := FindMismatch(p, k, z, m);
          assert r <==> Globs(p, i, z, j);
        } else {
          r := FindMatch(p, k, z, m);
          assert r <==> Globs(p, i, z, j);
        }
        return;
      } else if c == '?' {
        if j == |z| { return false; }
        i, j := i + 1, j + 1;
      } else if c == '[' {
        if j == |z| { return false; }
        var end, matches := ReadClass(p, i, z[j]);
        if !matches { return false; }
        i, j := end, j + 1;
      } else if c == '#' {
        if (At(z, j) == '-' || At(z, j) == '+') && IsDigit(At(z, j + 1)) { j := j + 1; }
        if !IsDigit(At(z, j)) { return false; }
        ghost var d := j;
        j := j + 1;
        while IsDigit(At(z, j))
          invariant j <= |z| && DigitsEnd(z, j) == DigitsEnd(z, d)
          decreases |z| - j
        {
          j := j + 1;
        }
        i := i + 1;
      } else {
        if At(z, j) != c { return false; }
        i, j := i + 1, j + 1;
      }
    }
    return j == |z|;
  }
}
