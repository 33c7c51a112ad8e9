/** When `strglob` keeps the rules in its comment, for every pattern: what it does with a class or
    a `#` behind a star run, and with the digits of a `#`. */
module GlobRules {
  import opened Glob

  // ---- The places the quantifiers speak of ----

  lemma MatchedAt(p: string, i: nat, z: string, j: nat, g: bool) returns (n: nat)
    requires MatchLater(p, i, z, j, g)
    ensures j <= n <= |z| && Match(p, i, z, n, g)
  {
    n :| j <= n <= |z| && Match(p, i, z, n, g);
  }

  lemma MismatchedAt(p: string, k: nat, z: string, m: nat) returns (n: nat)
    requires Mismatches(p, k, z, m)
    ensures m <= n < |z| && !Globs(p, k, z, n)
  {
    n :| m <= n < |z| && !Globs(p, k, z, n);
  }

  lemma NumberAt(p: string, k: nat, z: string, d: nat, g: bool) returns (e: nat)
    requires MatchNumber(p, k, z, d, g)
    ensures d < e <= DigitsEnd(z, d) && (g ==> e == DigitsEnd(z, d)) && Match(p, k, z, e, g)
  {
    e :| d < e <= DigitsEnd(z, d) && (g ==> e == DigitsEnd(z, d)) && Match(p, k, z, e, g);
  }

  lemma FoundAt(p: string, k: nat, z: string, m: nat) returns (n: nat)
    requires k < |p| && Matches(p, k, z, m)
    ensures m <= n < |z| && z[n] == p[k] && Globs(p, k + 1, z, n + 1)
  {
    n :| m <= n < |z| && z[n] == p[k] && Globs(p, k + 1, z, n + 1);
  }

  // ---- At the end of the string ----

  lemma {:induction false} AllStarsMatch(p: string, i: nat, z: string, g: bool)
    requires RunEnd(p, i) >= |p| && Marks(p, i) == 0
    ensures Match(p, i, z, |z|, g)
    decreases |p| - i
  {
    if i < |p| { AllStarsMatch(p, i + 1, z, g); }
  }

  /** The empty rest of a string is matched by stars alone, for the function and for the rules. */
  lemma {:induction false} EndsAlike(p: string, i: nat, z: string, g: bool)
    ensures Globs(p, i, z, |z|) <==> Match(p, i, z, |z|, g)
    ensures Match(p, i, z, |z|, g) ==> RunEnd(p, i) >= |p| && Marks(p, i) == 0
    decreases |p| - i
  {
    if i < |p| && p[i] == '*' {
      EndsAlike(p, i + 1, z, g);
      if RunEnd(p, i + 1) >= |p| && Marks(p, i + 1) == 0 { AllStarsMatch(p, i + 1, z, g); }
    }
  }

  /** A star run followed by a class is wrong on every string that leaves the class one character. */
  lemma {:induction false} StarClassAlwaysDiffers(p: string, i: nat, z: string, j: nat, g: bool)
    requires i < |p| && p[i] == '*' && At(p, RunEnd(p, i + 1)) == '['
    requires j + Marks(p, i + 1) + 1 == |z|
    ensures Globs(p, i, z, j) != Match(p, i, z, j, g)
  {
    var k, m := RunEnd(p, i + 1), j + Marks(p, i + 1);
    RunMatches(p, i + 1, z, j, g);
    assert Match(p, i, z, j, g) == Match(p, k, z, m, g);
    assert Globs(p, i, z, j) == !Globs(p, k, z, m);
    if InClass(p, k, z[m]) { EndsAlike(p, ClassEnd(p, k), z, g); }
  }

  /** A star run followed by `#` and stars takes the last character for a `#`, where the rules
      ask for a digit. */
  lemma StarNumberAlwaysDiffers(p: string, i: nat, z: string, j: nat, g: bool)
    requires i < |p| && p[i] == '*' && At(p, RunEnd(p, i + 1)) == '#'
    requires Match(p, RunEnd(p, i + 1) + 1, z, |z|, g) && j + Marks(p, i + 1) + 1 == |z|
    ensures Globs(p, i, z, j) <==> z[|z| - 1] == '#'
    ensures Match(p, i, z, j, g) <==> IsDigit(z[|z| - 1])
  {
    var k, m := RunEnd(p, i + 1), j + Marks(p, i + 1);
    RunMatches(p, i + 1, z, j, g);
    EndsAlike(p, k + 1, z, g);
    assert IsDigit(z[m]) ==> DigitsEnd(z, m) == |z|;
    assert Match(p, k, z, m, g) == IsDigit(z[m]) && !Match(p, k, z, |z|, g);
    assert Match(p, i, z, j, g) == Match(p, k, z, m, g);
  }

  // ---- Only the rest of the string counts ----

  lemma {:induction false} ShiftDigits(u: string, z: string, j: nat)
    requires j <= |z|
    ensures DigitsEnd(u + z, |u| + j) == |u| + DigitsEnd(z, j)
    decreases |z| - j
  {
    assert At(u + z, |u| + j) == At(z, j);
    if IsDigit(At(z, j)) { ShiftDigits(u, z, j + 1); }
  }

  lemma {:induction false} ShiftMatch(p: string, i: nat, u: string, z: string, j: nat, g: bool)
    requires j <= |z|
    ensures Match(p, i, u + z, |u| + j, g) <==> Match(p, i, z, j, g)
    decreases |p| - i, 3
  {
    if i >= |p| {
    } else if p[i] == '*' {
      ShiftLater(p, i + 1, u, z, j, g);
    } else if p[i] == '[' {
      if j < |z| && InClass(p, i, z[j]) { ShiftMatch(p, ClassEnd(p, i), u, z, j + 1, g); }
    } else if p[i] == '#' {
      assert At(u + z, |u| + j) == At(z, j) && At(u + z, |u| + j + 1) == At(z, j + 1);
      ShiftNumber(p, i + 1, u, z, AfterSign(z, j), g);
    } else if j < |z| {
      ShiftMatch(p, i + 1, u, z, j + 1, g);
    }
  }

  lemma ShiftLater(p: string, k: nat, u: string, z: string, j: nat, g: bool)
    requires j <= |z|
    ensures MatchLater(p, k, u + z, |u| + j, g) <==> MatchLater(p, k, z, j, g)
    decreases |p| - k, 4
  {
    var s := u + z;
    if MatchLater(p, k, s, |u| + j, g) {
      var n := MatchedAt(p, k, s, |u| + j, g);
      ShiftMatch(p, k, u, z, n - |u|, g);
      assert Match(p, k, z, n - |u|, g);
    }
    if MatchLater(p, k, z, j, g) {
      var n := MatchedAt(p, k, z, j, g);
      ShiftMatch(p, k, u, z, n, g);
    }
  }

  lemma ShiftNumber(p: string, k: nat, u: string, z: string, d: nat, g: bool)
    requires d <= |z|
    ensures MatchNumber(p, k, u + z, |u| + d, g) <==> MatchNumber(p, k, z, d, g)
    decreases |p| - k, 4
  {
    var s := u + z;
    ShiftDigits(u, z, d);
    if MatchNumber(p, k, s, |u| + d, g) {
      var e := NumberAt(p, k, s, |u| + d, g);
      ShiftMatch(p, k, u, z, e - |u|, g);
      assert Match(p, k, z, e - |u|, g);
    }
    if MatchNumber(p, k, z, d, g) {
      var e := NumberAt(p, k, z, d, g);
      ShiftMatch(p, k, u, z, e, g);
    }
  }

  lemma {:induction false} ShiftGlobs(p: string, i: nat, u: string, z: string, j: nat)
    requires j <= |z|
    ensures Globs(p, i, u + z, |u| + j) <==> Globs(p, i, z, j)
    decreases |p| - i, 3
  {
    if i >= |p| {
    } else if p[i] == '*' {
      var k, m := RunEnd(p, i + 1), j + Marks(p, i + 1);
      if m <= |z| && k < |p| {
        ShiftMatches(p, k, u, z, m);
        ShiftMismatches(p, k, u, z, m);
      }
    } else if p[i] == '[' {
      if j < |z| && InClass(p, i, z[j]) { ShiftGlobs(p, ClassEnd(p, i), u, z, j + 1); }
    } else if p[i] == '#' {
      assert At(u + z, |u| + j) == At(z, j) && At(u + z, |u| + j + 1) == At(z, j + 1);
      var d := AfterSign(z, j);
      if IsDigit(At(z, d)) {
        ShiftDigits(u, z, d);
        ShiftGlobs(p, i + 1, u, z, DigitsEnd(z, d));
      }
    } else if j < |z| {
      ShiftGlobs(p, i + 1, u, z, j + 1);
    }
  }

  lemma ShiftMatches(p: string, k: nat, u: string, z: string, m: nat)
    requires k < |p| && m <= |z|
    ensures Matches(p, k, u + z, |u| + m) <==> Matches(p, k, z, m)
    decreases |p| - k, 1
  {
    var s := u + z;
    if Matches(p, k, s, |u| + m) {
      var n :| |u| + m <= n < |s| && s[n] == p[k] && Globs(p, k + 1, s, n + 1);
      ShiftGlobs(p, k + 1, u, z, n - |u| + 1);
      assert z[n - |u|] == p[k];
    }
    if Matches(p, k, z, m) {
      var n :| m <= n < |z| && z[n] == p[k] && Globs(p, k + 1, z, n + 1);
      ShiftGlobs(p, k + 1, u, z, n + 1);
      assert s[|u| + n] == p[k];
    }
  }

  lemma ShiftMismatches(p: string, k: nat, u: string, z: string, m: nat)
    requires k < |p| && m <= |z|
    ensures Mismatches(p, k, u + z, |u| + m) <==> Mismatches(p, k, z, m)
    decreases |p| - k, 4
  {
    var s := u + z;
    if Mismatches(p, k, s, |u| + m) {
      var n := MismatchedAt(p, k, s, |u| + m);
      ShiftGlobs(p, k, u, z, n - |u|);
      assert !Globs(p, k, z, n - |u|);
    }
    if Mismatches(p, k, z, m) {
      var n := MismatchedAt(p, k, z, m);
      ShiftGlobs(p, k, u, z, n);
    }
  }

  lemma Shift(p: string, i: nat, u: string, z: string, j: nat, g: bool)
    requires j <= |z|
    ensures Globs(p, i, u + z, |u| + j) <==> Globs(p, i, z, j)
    ensures Match(p, i, u + z, |u| + j, g) <==> Match(p, i, z, j, g)
  {
    ShiftGlobs(p, i, u, z, j);
    ShiftMatch(p, i, u, z, j, g);
  }

  // ---- Strings that tell the function from the rules ----

  ghost predicate NoGlobs(p: string, i: nat, z: string)
  {
    forall j: nat :: j <= |z| ==> !Globs(p, i, z, j)
  }

  ghost predicate NoMatch(p: string, i: nat, z: string, g: bool)
  {
    forall j: nat :: j <= |z| ==> !Match(p, i, z, j, g)
  }

  /** One of the two takes the whole of `z`, the other takes no tail of it. */
  ghost predicate Parts(p: string, i: nat, z: string, g: bool)
  {
    NoNul(z) && ((Globs(p, i, z, 0) && NoMatch(p, i, z, g)) || (Match(p, i, z, 0, g) && NoGlobs(p, i, z)))
  }

  /** `[c] + z` is to the item at `i`, which takes `c`, what `z` is to the pattern from `e` on. */
  lemma PartsOneCharacter(p: string, i: nat, e: nat, c: char, z: string, g: bool)
    requires i < |p| && p[i] != '*' && p[i] != '#' && c != NUL && Parts(p, e, z, g)
    requires e == if p[i] == '[' then ClassEnd(p, i) else i + 1
    requires if p[i] == '[' then InClass(p, i, c) else p[i] == '?' || p[i] == c
    ensures Parts(p, i, [c] + z, g)
  {
    var s := [c] + z;
    Shift(p, e, [c], z, 0, g);
    forall j: nat | j < |s|
      ensures Globs(p, i, s, j) ==> Globs(p, e, z, j)
      ensures Match(p, i, s, j, g) ==> Match(p, e, z, j, g)
    {
      Shift(p, e, [c], z, j, g);
    }
  }

  lemma PartsNumber(p: string, i: nat, z: string, g: bool)
    requires i < |p| && p[i] == '#' && Parts(p, i + 1, z, g) && !IsDigit(At(z, 0))
    ensures Parts(p, i, "+1" + z, g)
  {
    var s := "+1" + z;
    assert At(s, 2) == At(z, 0);
    assert DigitsEnd(s, 1) == 2;
    Shift(p, i + 1, "+1", z, 0, g);
    assert Match(p, i + 1, z, 0, g) ==> MatchNumber(p, i + 1, s, 1, g);
    forall j: nat | j <= |s|
      ensures Globs(p, i, s, j) ==> !NoGlobs(p, i + 1, z)
      ensures Match(p, i, s, j, g) ==> !NoMatch(p, i + 1, z, g)
    {
      if Globs(p, i, s, j) {
        ShiftGlobs(p, i + 1, "+1", z, DigitsEnd(s, AfterSign(s, j)) - 2);
      }
      if Match(p, i, s, j, g) {
        var e := NumberAt(p, i + 1, s, AfterSign(s, j), g);
        ShiftMatch(p, i + 1, "+1", z, e - 2, g);
      }
    }
  }

  /** `n` times the character `c`. */
  function Times(n: nat, c: char): string { seq(n, _ => c) }

  /** A star run in front of a character: `c`, which is not that character, keeps the star from
      ending early. */
  lemma PartsStar(p: string, i: nat, c: char, z: string, g: bool)
    requires i < |p| && p[i] == '*' && RunEnd(p, i + 1) < |p|
    requires p[RunEnd(p, i + 1)] !in {'[', '#', c} && c != NUL && Parts(p, RunEnd(p, i + 1), z, g)
    ensures Parts(p, i, Times(Marks(p, i + 1) + 1, c) + z, g)
  {
    var k, u := RunEnd(p, i + 1), Times(Marks(p, i + 1) + 1, c);
    var s := u + z;
    forall j: nat | j <= |s|
      ensures Globs(p, i, s, j) ==> !NoGlobs(p, k, z)
      ensures Match(p, i, s, j, g) ==> !NoMatch(p, k, z, g)
    {
      if Globs(p, i, s, j) { PartsStarGlobs(p, i, c, z, j); }
      if Match(p, i, s, j, g) { PartsStarMatch(p, i, c, z, j, g); }
    }
    RunMatches(p, i + 1, s, 0, g);
    Shift(p, k, u, z, 0, g);
    assert s[|u|..] == z;
    assert Globs(p, k, z, 0) ==> Matches(p, k, s, |u| - 1);
  }

  lemma PartsStarGlobs(p: string, i: nat, c: char, z: string, j: nat)
    requires i < |p| && p[i] == '*' && RunEnd(p, i + 1) < |p|
    requires p[RunEnd(p, i + 1)] !in {'[', '#', c}
    requires j <= Marks(p, i + 1) + 1 + |z| && Globs(p, i, Times(Marks(p, i + 1) + 1, c) + z, j)
    ensures !NoGlobs(p, RunEnd(p, i + 1), z)
  {
    var k, u := RunEnd(p, i + 1), Times(Marks(p, i + 1) + 1, c);
    var n := FoundAt(p, k, u + z, j + Marks(p, i + 1));
    ShiftGlobs(p, k + 1, u, z, n + 1 - |u|);
    assert Globs(p, k, z, n - |u|);
  }

  lemma PartsStarMatch(p: string, i: nat, c: char, z: string, j: nat, g: bool)
    requires i < |p| && p[i] == '*' && RunEnd(p, i + 1) < |p|
    requires p[RunEnd(p, i + 1)] !in {'[', '#', c}
    requires j <= Marks(p, i + 1) + 1 + |z| && Match(p, i, Times(Marks(p, i + 1) + 1, c) + z, j, g)
    ensures !NoMatch(p, RunEnd(p, i + 1), z, g)
  {
    var k, u := RunEnd(p, i + 1), Times(Marks(p, i + 1) + 1, c);
    RunMatches(p, i + 1, u + z, j, g);
    var n := MatchedAt(p, k, u + z, j + Marks(p, i + 1), g);
    Shift(p, k, u, z, n - |u|, g);
    assert Match(p, k, z, n - |u|, g);
  }

  lemma {:induction false} PartsStarClass(p: string, i: nat, g: bool)
    requires i < |p| && p[i] == '*' && At(p, RunEnd(p, i + 1)) == '['
    ensures Parts(p, i, Times(Marks(p, i + 1) + 1, 'a'), g)
  {
    var k, z := RunEnd(p, i + 1), Times(Marks(p, i + 1) + 1, 'a');
    StarClassAlwaysDiffers(p, i, z, 0, g);
    forall j: nat | 0 < j <= |z| ensures !Globs(p, i, z, j) && !Match(p, i, z, j, g) {
      RunMatches(p, i + 1, z, j, g);
    }
  }

  /** No string shorter than `len` is taken from `k` on. */
  ghost predicate Least(p: string, k: nat, len: nat)
  {
    forall x: string :: NoNul(x) && |x| < len ==> !Globs(p, k, x, 0)
  }

  lemma {:induction false} Shortest(p: string, k: nat, w: string) returns (v: string)
    requires NoNul(w) && Globs(p, k, w, 0)
    ensures NoNul(v) && Globs(p, k, v, 0) && Least(p, k, |v|)
    decreases |w|
  {
    if Least(p, k, |w|) {
      v := w;
    } else {
      var x: string :| NoNul(x) && |x| < |w| && Globs(p, k, x, 0);
      v := Shortest(p, k, x);
    }
  }

  lemma {:induction false} NoShorterTail(p: string, k: nat, len: nat, s: string, n: nat)
    requires Least(p, k, len) && NoNul(s) && n <= |s| < n + len
    ensures !Globs(p, k, s, n)
  {
    assert s == s[..n] + s[n..];
    ShiftGlobs(p, k, s[..n], s[n..], 0);
  }

  /** The star takes its marks and an `a`, and what is left is too short for a `#` and the rest. */
  lemma {:induction false} TooShort(p: string, i: nat, len: nat, y: string)
    requires i < |p| && p[i] == '*' && At(p, RunEnd(p, i + 1)) == '#'
    requires NoNul(y) && |y| <= len && Least(p, RunEnd(p, i + 1) + 1, len)
    ensures NoGlobs(p, i, Times(Marks(p, i + 1) + 1, 'a') + y)
  {
    var k, s := RunEnd(p, i + 1), Times(Marks(p, i + 1) + 1, 'a') + y;
    forall m: nat | m <= |s| ensures !Globs(p, i, s, m) {
      if Globs(p, i, s, m) {
        var n := FoundAt(p, k, s, m + Marks(p, i + 1));
        NoShorterTail(p, k + 1, len, s, n + 1);
      }
    }
  }

  lemma StarMatches(p: string, i: nat, t: string, j: nat, g: bool)
    requires i < |p| && p[i] == '*' && j <= |t| && Match(p, RunEnd(p, i + 1), t, j, g)
    ensures Match(p, i, Times(Marks(p, i + 1) + 1, 'a') + t[j..], 0, g)
  {
    var k, u, y := RunEnd(p, i + 1), Times(Marks(p, i + 1) + 1, 'a'), t[j..];
    assert t == t[..j] + y;
    Shift(p, k, t[..j], y, 0, g);
    Shift(p, k, u, y, 0, g);
    RunMatches(p, i + 1, u + y, 0, g);
  }

  lemma PartsWithNumber(p: string, i: nat, len: nat, t: string, j: nat, g: bool)
    requires i < |p| && p[i] == '*' && At(p, RunEnd(p, i + 1)) == '#'
    requires NoNul(t) && j <= |t| <= j + len && Match(p, RunEnd(p, i + 1), t, j, g)
    requires Least(p, RunEnd(p, i + 1) + 1, len)
    ensures Parts(p, i, Times(Marks(p, i + 1) + 1, 'a') + t[j..], g)
  {
    StarMatches(p, i, t, j, g);
    TooShort(p, i, len, t[j..]);
  }

  lemma {:induction false} MatchedFromStart(p: string, i: nat, z: string, j: nat, g: bool)
    requires i < |p| && p[i] == '*' && j <= |z| && Match(p, i, z, j, g)
    ensures Match(p, i, z, 0, g)
  {
    var n := MatchedAt(p, i + 1, z, j, g);
  }

  /** The shortest `#w` that the function takes: the rules take it only for a number in `w`. */
  lemma PartsAtNumberSign(p: string, i: nat, w: string, g: bool) returns (z: string)
    requires i < |p| && p[i] == '*' && At(p, RunEnd(p, i + 1)) == '#'
    requires NoNul(w) && Globs(p, RunEnd(p, i + 1) + 1, w, 0) && Least(p, RunEnd(p, i + 1) + 1, |w|)
    ensures Parts(p, i, z, g) && z != "" && !IsDigit(z[0])
  {
    var k, d := RunEnd(p, i + 1), Marks(p, i + 1);
    z := Times(d, 'a') + "#" + w;
    TakesNumberSign(p, i, w);
    if Match(p, i, z, 0, g) {
      RunMatches(p, i + 1, z, 0, g);
      var n := MatchedAt(p, k, z, d, g);
      assert n != d;
      PartsWithNumber(p, i, |w|, z, n, g);
      z := Times(d + 1, 'a') + z[n..];
    } else {
      forall m: nat | m <= |z| ensures !Match(p, i, z, m, g) {
        if Match(p, i, z, m, g) { MatchedFromStart(p, i, z, m, g); }
      }
    }
  }

  lemma TakesNumberSign(p: string, i: nat, w: string)
    requires i < |p| && p[i] == '*' && At(p, RunEnd(p, i + 1)) == '#'
    requires Globs(p, RunEnd(p, i + 1) + 1, w, 0)
    ensures Globs(p, i, Times(Marks(p, i + 1), 'a') + "#" + w, 0)
  {
    var k, d := RunEnd(p, i + 1), Marks(p, i + 1);
    var u := Times(d, 'a') + "#";
    ShiftGlobs(p, k + 1, u, w, 0);
    assert (u + w)[d] == p[k];
    assert Matches(p, k, u + w, d);
  }

  /** A star run in front of a `#`, when some string follows the rules. */
  lemma PartsStarNumber(p: string, i: nat, t: string, j: nat, g: bool) returns (z: string)
    requires i < |p| && p[i] == '*' && At(p, RunEnd(p, i + 1)) == '#'
    requires NoNul(t) && j <= |t| && Match(p, i, t, j, g)
    ensures Parts(p, i, z, g) && z != "" && !IsDigit(z[0])
  {
    var k, d := RunEnd(p, i + 1), Marks(p, i + 1);
    if Least(p, k + 1, |t|) {
      RunMatches(p, i + 1, t, j, g);
      var n := MatchedAt(p, k, t, j + d, g);
      PartsWithNumber(p, i, |t|, t, n, g);
      z := Times(d + 1, 'a') + t[n..];
    } else {
      var x: string :| NoNul(x) && |x| < |t| && Globs(p, k + 1, x, 0);
      var w := Shortest(p, k + 1, x);
      z := PartsAtNumberSign(p, i, w, g);
    }
  }

  // ---- Which patterns the rules let match anything ----

  /** Each class has a character, and no greedy `#` is followed by something that asks for a
      digit.  `free` says that the string may start with a digit. */
  ghost predicate Live(p: string, i: nat, free: bool, greedy: bool)
    decreases |p| - i
  {
    if i >= |p| then true
    else if p[i] == '*' || p[i] == '?' then Live(p, i + 1, true, greedy)
    else if p[i] == '[' then HasChar(p, i, free) && Live(p, ClassEnd(p, i), true, greedy)
    else if p[i] == '#' then Live(p, i + 1, !greedy, greedy)
    else (free || !IsDigit(p[i])) && Live(p, i + 1, true, greedy)
  }

  /** The class at `i` has a character, and one that is no digit unless `free`. */
  ghost predicate HasChar(p: string, i: nat, free: bool)
  {
    exists c :: c != NUL && (free || !IsDigit(c)) && InClass(p, i, c)
  }

  lemma {:induction false} LiveMatches(p: string, i: nat, free: bool, g: bool) returns (t: string)
    requires NoNul(p) && Live(p, i, free, g)
    ensures NoNul(t) && Match(p, i, t, 0, g) && (free || !IsDigit(At(t, 0)))
    decreases |p| - i
  {
    if i >= |p| {
      t := "";
    } else if p[i] == '#' {
      var y := LiveMatches(p, i + 1, !g, g);
      ShiftMatch(p, i + 1, "+1", y, 0, g);
      t := "+1" + y;
      assert At(t, 2) == At(y, 0);
      assert !IsDigit(At(y, 0)) ==> DigitsEnd(t, 2) == 2;
      assert MatchNumber(p, i + 1, t, 1, g);
    } else {
      var c := 'a';
      if p[i] == '[' { c :| c != NUL && (free || !IsDigit(c)) && InClass(p, i, c); }
      else if p[i] != '*' && p[i] != '?' { c := p[i]; }
      var e := if p[i] == '[' then ClassEnd(p, i) else i + 1;
      var y := LiveMatches(p, e, true, g);
      ShiftMatch(p, e, [c], y, 0, g);
      t := [c] + y;
    }
  }

  lemma {:induction false} MatchedIsLive(p: string, i: nat, t: string, j: nat, g: bool)
    requires NoNul(p) && NoNul(t) && j <= |t| && Match(p, i, t, j, g)
    ensures Live(p, i, IsDigit(At(t, j)), g)
    decreases |p| - i
  {
    if i >= |p| {
    } else if p[i] == '*' {
      var n := MatchedAt(p, i + 1, t, j, g);
      MatchedIsLive(p, i + 1, t, n, g);
    } else if p[i] == '#' {
      var e := NumberAt(p, i + 1, t, AfterSign(t, j), g);
      NoDigitBehind(t, AfterSign(t, j));
      MatchedIsLive(p, i + 1, t, e, g);
    } else {
      MatchedIsLive(p, if p[i] == '[' then ClassEnd(p, i) else i + 1, t, j + 1, g);
    }
  }

  lemma {:induction false} NoDigitBehind(z: string, j: nat)
    ensures !IsDigit(At(z, DigitsEnd(z, j)))
    decreases |z| - j
  {
    if IsDigit(At(z, j)) { NoDigitBehind(z, j + 1); }
  }

  /** Whether the rules let a pattern match anything can be read off the pattern. */
  lemma {:induction false} MatchesSomethingIffLive(p: string, g: bool)
    requires NoNul(p)
    ensures (exists t :: NoNul(t) && Match(p, 0, t, 0, g)) <==> Live(p, 0, true, g)
  {
    if Live(p, 0, true, g) { var t := LiveMatches(p, 0, true, g); }
    if t: string :| NoNul(t) && Match(p, 0, t, 0, g) { MatchedIsLive(p, 0, t, 0, g); }
  }

  // ---- Which patterns the function lets match anything ----

  /** The class at `k` has every character, and only stars, but some, come behind it. */
  ghost predicate TakesEverything(p: string, k: nat)
  {
    var e := ClassEnd(p, k);
    (forall c :: c != NUL ==> InClass(p, k, c)) && e < |p| && RunEnd(p, e) >= |p| && Marks(p, e) == 0
  }

  /** The same for the function.  Behind a star run it wants a `#` itself, and a place where a
      class and all behind it fail. */
  ghost predicate Takes(p: string, i: nat, free: bool)
    decreases |p| - i
  {
    if i >= |p| then true
    else if p[i] == '*' then
      var k := RunEnd(p, i + 1);
      k >= |p| || if p[k] == '[' then !TakesEverything(p, k) else Takes(p, k + 1, true)
    else if p[i] == '?' then Takes(p, i + 1, true)
    else if p[i] == '[' then HasChar(p, i, free) && Takes(p, ClassEnd(p, i), true)
    else if p[i] == '#' then Takes(p, i + 1, false)
    else (free || !IsDigit(p[i])) && Takes(p, i + 1, true)
  }

  lemma {:induction false} StarsTake(p: string, e: nat, z: string, j: nat)
    requires e < |p| && RunEnd(p, e) >= |p| && Marks(p, e) == 0 && j <= |z|
    ensures Globs(p, e, z, j)
  {
  }

  lemma {:induction false} TakenIsTakes(p: string, i: nat, z: string, j: nat)
    requires NoNul(p) && NoNul(z) && j <= |z| && Globs(p, i, z, j)
    ensures Takes(p, i, IsDigit(At(z, j)))
    decreases |p| - i
  {
    if i >= |p| {
    } else if p[i] == '*' {
      var k, m := RunEnd(p, i + 1), j + Marks(p, i + 1);
      if k < |p| && p[k] == '[' {
        var n := MismatchedAt(p, k, z, m);
        if TakesEverything(p, k) { StarsTake(p, ClassEnd(p, k), z, n + 1); }
      } else if k < |p| {
        var n := FoundAt(p, k, z, m);
        TakenIsTakes(p, k + 1, z, n + 1);
      }
    } else if p[i] == '#' {
      NoDigitBehind(z, AfterSign(z, j));
      TakenIsTakes(p, i + 1, z, DigitsEnd(z, AfterSign(z, j)));
    } else {
      TakenIsTakes(p, if p[i] == '[' then ClassEnd(p, i) else i + 1, z, j + 1);
    }
  }

  /** A string on which a class and what comes behind it fail, unless they take everything. */
  lemma FailsSomewhere(p: string, k: nat) returns (z: string)
    requires k < |p| && p[k] == '[' && !TakesEverything(p, k)
    ensures NoNul(z) && z != "" && !Globs(p, k, z, 0)
  {
    var e := ClassEnd(p, k);
    if c :| c != NUL && !InClass(p, k, c) {
      z := [c];
    } else if e < |p| {
      z := "a";
      EndsAlike(p, e, z, true);
    } else {
      z := "aa";
    }
  }

  lemma {:induction false} TakesTakes(p: string, i: nat, free: bool) returns (z: string)
    requires NoNul(p) && Takes(p, i, free)
    ensures NoNul(z) && Globs(p, i, z, 0) && (free || !IsDigit(At(z, 0)))
    decreases |p| - i
  {
    if i >= |p| {
      z := "";
    } else if p[i] == '*' {
      z := StarTakes(p, i);
    } else if p[i] == '#' {
      var y := TakesTakes(p, i + 1, false);
      ShiftGlobs(p, i + 1, "+1", y, 0);
      z := "+1" + y;
      assert At(z, 2) == At(y, 0);
      assert DigitsEnd(z, 1) == 2;
    } else {
      var c := 'a';
      if p[i] == '[' { c :| c != NUL && (free || !IsDigit(c)) && InClass(p, i, c); }
      else if p[i] != '?' { c := p[i]; }
      var e := if p[i] == '[' then ClassEnd(p, i) else i + 1;
      var y := TakesTakes(p, e, true);
      ShiftGlobs(p, e, [c], y, 0);
      z := [c] + y;
    }
  }

  lemma StarTakes(p: string, i: nat) returns (z: string)
    requires NoNul(p) && i < |p| && p[i] == '*' && Takes(p, i, true)
    ensures NoNul(z) && Globs(p, i, z, 0) && !IsDigit(At(z, 0))
    decreases |p| - i, 0
  {
    var k, u := RunEnd(p, i + 1), Times(Marks(p, i + 1) + 1, 'a');
    if k >= |p| {
      z := u;
    } else if p[k] == '[' {
      var y := FailsSomewhere(p, k);
      ShiftGlobs(p, k, u, y, 0);
      z := u + y;
      assert Mismatches(p, k, z, |u| - 1);
    } else {
      var y := TakesTakes(p, k + 1, true);
      z := u + [p[k]] + y;
      ShiftGlobs(p, k + 1, u + [p[k]], y, 0);
      assert z[|u|] == p[k];
      assert Matches(p, k, z, |u| - 1);
    }
  }

  /** A pattern that is not regular, and that both let match something, has a string on which the
      function is wrong. */
  lemma {:induction false} NotRegularParts(p: string, i: nat, free: bool, g: bool) returns (z: string)
    requires NoNul(p) && !Regular(p, i) && Takes(p, i, free) && Live(p, i, true, g)
    ensures Parts(p, i, z, g) && (free || !IsDigit(At(z, 0)))
    decreases |p| - i
  {
    var k := RunEnd(p, i + 1);
    if p[i] == '*' && At(p, k) == '[' {
      PartsStarClass(p, i, g);
      z := Times(Marks(p, i + 1) + 1, 'a');
    } else if p[i] == '*' && At(p, k) == '#' {
      var t := LiveMatches(p, i, true, g);
      z := PartsStarNumber(p, i, t, 0, g);
    } else if p[i] == '*' {
      LiveBehindRun(p, i + 1, g);
      var y := NotRegularParts(p, k, true, g);
      var c := if p[k] == 'a' then 'b' else 'a';
      PartsStar(p, i, c, y, g);
      z := Times(Marks(p, i + 1) + 1, c) + y;
    } else if p[i] == '#' {
      var y := NotRegularParts(p, i + 1, false, g);
      PartsNumber(p, i, y, g);
      z := "+1" + y;
    } else {
      var c := 'a';
      if p[i] == '[' { c :| c != NUL && (free || !IsDigit(c)) && InClass(p, i, c); }
      else if p[i] != '?' { c := p[i]; }
      var e := if p[i] == '[' then ClassEnd(p, i) else i + 1;
      var y := NotRegularParts(p, e, true, g);
      PartsOneCharacter(p, i, e, c, y, g);
      z := [c] + y;
    }
  }

  lemma {:induction false} LiveBehindRun(p: string, i: nat, g: bool)
    requires Live(p, i, true, g)
    ensures Live(p, RunEnd(p, i), true, g)
    decreases |p| - i
  {
    if At(p, i) == '*' || At(p, i) == '?' { LiveBehindRun(p, i + 1, g); }
  }

  // ---- Where all digits or some make a difference ----

  /** What comes next, behind stars only, can be a digit. */
  ghost predicate WantsDigit(p: string, i: nat)
    decreases |p| - i
  {
    i < |p| &&
    if p[i] == '*' then WantsDigit(p, i + 1)
    else if p[i] == '[' then exists c :: IsDigit(c) && InClass(p, i, c)
    else p[i] == '?' || p[i] == '#' || IsDigit(p[i])
  }

  /** No `#` is followed, behind stars only, by something that can be a digit. */
  ghost predicate Greedy(p: string, i: nat)
    decreases |p| - i
  {
    if i >= |p| then true
    else if p[i] == '[' then Greedy(p, ClassEnd(p, i))
    else (p[i] == '#' ==> !WantsDigit(p, i + 1)) && Greedy(p, i + 1)
  }

  lemma {:induction false} SkipsDigit(p: string, i: nat, z: string, j: nat, g: bool)
    requires !WantsDigit(p, i) && IsDigit(At(z, j)) && Match(p, i, z, j, g)
    ensures Match(p, i, z, j + 1, g)
    decreases |p| - i
  {
    assert i < |p| && p[i] == '*';
    var n := MatchedAt(p, i + 1, z, j, g);
    if n == j { SkipsDigit(p, i + 1, z, j, g); }
    assert MatchLater(p, i + 1, z, j + 1, g);
  }

  lemma {:induction false} SkipsDigits(p: string, i: nat, z: string, j: nat, g: bool)
    requires !WantsDigit(p, i) && Match(p, i, z, j, g)
    ensures Match(p, i, z, DigitsEnd(z, j), g)
    decreases |z| - j
  {
    if IsDigit(At(z, j)) {
      SkipsDigit(p, i, z, j, g);
      SkipsDigits(p, i, z, j + 1, g);
    }
  }

  lemma {:induction false} SameEnd(z: string, d: nat, e: nat)
    requires d <= e <= DigitsEnd(z, d)
    ensures DigitsEnd(z, e) == DigitsEnd(z, d)
    decreases e - d
  {
    if d < e { SameEnd(z, d + 1, e); }
  }

  /** Then it makes no difference how many digits a `#` takes. */
  lemma {:induction false} GreedyIsEnough(p: string, i: nat, z: string, j: nat)
    requires Greedy(p, i) && j <= |z|
    ensures Match(p, i, z, j, false) <==> Match(p, i, z, j, true)
    decreases |p| - i
  {
    if i >= |p| {
    } else if p[i] == '*' {
      if MatchLater(p, i + 1, z, j, false) {
        var n := MatchedAt(p, i + 1, z, j, false);
        GreedyIsEnough(p, i + 1, z, n);
      }
      if MatchLater(p, i + 1, z, j, true) {
        var n := MatchedAt(p, i + 1, z, j, true);
        GreedyIsEnough(p, i + 1, z, n);
      }
    } else if p[i] == '#' {
      NumbersAgree(p, i, z, AfterSign(z, j));
    } else if j < |z| && (p[i] == '[' ==> InClass(p, i, z[j])) {
      GreedyIsEnough(p, if p[i] == '[' then ClassEnd(p, i) else i + 1, z, j + 1);
    }
  }

  lemma NumbersAgree(p: string, i: nat, z: string, d: nat)
    requires i < |p| && p[i] == '#' && Greedy(p, i) && d <= |z|
    ensures MatchNumber(p, i + 1, z, d, false) <==> MatchNumber(p, i + 1, z, d, true)
    decreases |p| - i, 0
  {
    if MatchNumber(p, i + 1, z, d, false) {
      var e := NumberAt(p, i + 1, z, d, false);
      SkipsDigits(p, i + 1, z, e, false);
      SameEnd(z, d, e);
      GreedyIsEnough(p, i + 1, z, DigitsEnd(z, d));
    }
    if MatchNumber(p, i + 1, z, d, true) {
      var e := NumberAt(p, i + 1, z, d, true);
      GreedyIsEnough(p, i + 1, z, e);
    }
  }

  /** The fewest characters that a pattern takes. */
  function Fewest(p: string, i: nat): nat
    decreases |p| - i
  {
    if i >= |p| then 0
    else if p[i] == '*' then Fewest(p, i + 1)
    else if p[i] == '[' then 1 + Fewest(p, ClassEnd(p, i))
    else 1 + Fewest(p, i + 1)
  }

  lemma {:induction false} TakesFewest(p: string, i: nat, z: string, j: nat, g: bool)
    requires Match(p, i, z, j, g) && j <= |z|
    ensures j + Fewest(p, i) <= |z|
    decreases |p| - i
  {
    if i >= |p| {
    } else if p[i] == '*' {
      var n := MatchedAt(p, i + 1, z, j, g);
      TakesFewest(p, i + 1, z, n, g);
    } else if p[i] == '#' {
      var e := NumberAt(p, i + 1, z, AfterSign(z, j), g);
      TakesFewest(p, i + 1, z, e, g);
    } else {
      TakesFewest(p, if p[i] == '[' then ClassEnd(p, i) else i + 1, z, j + 1, g);
    }
  }

  /** A shortest string, which starts with a digit if it can. */
  lemma {:induction false} ShortString(p: string, i: nat) returns (z: string)
    requires NoNul(p) && Live(p, i, true, false)
    ensures NoNul(z) && |z| == Fewest(p, i) && Match(p, i, z, 0, false)
    ensures WantsDigit(p, i) ==> z != "" && IsDigit(z[0])
    decreases |p| - i
  {
    if i >= |p| {
      z := "";
    } else if p[i] == '*' {
      z := ShortString(p, i + 1);
      assert MatchLater(p, i + 1, z, 0, false);
    } else {
      var e := if p[i] == '[' then ClassEnd(p, i) else i + 1;
      var y := ShortString(p, e);
      var c := '1';
      if p[i] == '[' { c := CharOf(p, i); }
      else if p[i] != '?' && p[i] != '#' { c := p[i]; }
      z := [c] + y;
      ShiftMatch(p, e, [c], y, 0, false);
      if p[i] == '#' { OneDigit(p, i, z); }
    }
  }

  lemma CharOf(p: string, i: nat) returns (c: char)
    requires HasChar(p, i, true)
    ensures c != NUL && InClass(p, i, c)
    ensures (exists d :: IsDigit(d) && InClass(p, i, d)) ==> IsDigit(c)
  {
    if d :| IsDigit(d) && InClass(p, i, d) {
      c := d;
    } else {
      c :| c != NUL && InClass(p, i, c);
    }
  }

  lemma {:induction false} OneDigit(p: string, i: nat, z: string)
    requires i < |p| && p[i] == '#' && z != "" && IsDigit(z[0]) && Match(p, i + 1, z, 1, false)
    ensures Match(p, i, z, 0, false)
  {
    assert 1 <= DigitsEnd(z, 0);
    assert MatchNumber(p, i + 1, z, 0, false);
  }

  /** A shortest string on which a greedy `#` takes one digit too many. */
  lemma {:induction false} NotGreedyDiffers(p: string, i: nat) returns (z: string)
    requires NoNul(p) && Live(p, i, true, false) && !Greedy(p, i)
    ensures NoNul(z) && |z| == Fewest(p, i) && Match(p, i, z, 0, false) && !Match(p, i, z, 0, true)
    decreases |p| - i
  {
    if p[i] == '*' {
      z := NotGreedyDiffers(p, i + 1);
      if Match(p, i, z, 0, true) {
        var n := MatchedAt(p, i + 1, z, 0, true);
        TakesFewest(p, i + 1, z, n, true);
      }
      assert MatchLater(p, i + 1, z, 0, false);
    } else if p[i] == '#' && WantsDigit(p, i + 1) {
      var y := ShortString(p, i + 1);
      z := "1" + y;
      ShiftMatch(p, i + 1, "1", y, 0, false);
      OneDigit(p, i, z);
      if Match(p, i, z, 0, true) { OneTooMany(p, i, z); }
    } else if p[i] == '#' {
      var y := NotGreedyDiffers(p, i + 1);
      z := "1" + y;
      Shift(p, i + 1, "1", y, 0, false);
      ShiftMatch(p, i + 1, "1", y, 0, true);
      OneDigit(p, i, z);
      if Match(p, i, z, 0, true) {
        var e := NumberAt(p, i + 1, z, AfterSign(z, 0), true);
        TakesFewest(p, i + 1, z, e, true);
      }
    } else {
      var e := if p[i] == '[' then ClassEnd(p, i) else i + 1;
      var y := NotGreedyDiffers(p, e);
      var c := '1';
      if p[i] == '[' { c := CharOf(p, i); } else if p[i] != '?' { c := p[i]; }
      z := [c] + y;
      ShiftMatch(p, e, [c], y, 0, false);
      ShiftMatch(p, e, [c], y, 0, true);
    }
  }

  lemma {:induction false} OneTooMany(p: string, i: nat, z: string)
    requires i < |p| && p[i] == '#' && |z| == 1 + Fewest(p, i + 1)
    requires |z| > 1 && IsDigit(z[0]) && IsDigit(z[1])
    ensures !Match(p, i, z, 0, true)
  {
    if Match(p, i, z, 0, true) {
      assert DigitsEnd(z, 0) >= 2;
      var e := NumberAt(p, i + 1, z, AfterSign(z, 0), true);
      TakesFewest(p, i + 1, z, e, true);
    }
  }

  // ---- When the function keeps its rules ----

  ghost predicate KeepsRules(p: string, greedy: bool)
  {
    forall z: string :: NoNul(z) ==> (Globs(p, 0, z, 0) <==> Match(p, 0, z, 0, greedy))
  }

  /** For every pattern, and for both readings of `#`: the function agrees with the rules on all
      strings exactly if the pattern is regular and, where `#` may take some of the digits, it
      makes no difference how many; or, if the pattern matches nothing by the rules, if the
      function does not let it match anything either. */
  lemma {:induction false} KeepsRulesIff(p: string, g: bool)
    requires NoNul(p)
    ensures KeepsRules(p, g) <==>
      if Live(p, 0, true, g) then Regular(p, 0) && (g || Greedy(p, 0)) else !Takes(p, 0, true)
  {
    if !Live(p, 0, true, g) {
      DeadPattern(p, g);
    } else if Regular(p, 0) && (g || Greedy(p, 0)) {
      forall z: string | NoNul(z) ensures Globs(p, 0, z, 0) <==> Match(p, 0, z, 0, g) {
        GlobsIsMatch(p, 0, z, 0);
        if !g { GreedyIsEnough(p, 0, z, 0); }
      }
    } else if !Takes(p, 0, true) {
      var t := LiveMatches(p, 0, true, g);
      if Globs(p, 0, t, 0) { TakenIsTakes(p, 0, t, 0); }
    } else if !Regular(p, 0) {
      var z := NotRegularParts(p, 0, true, g);
      assert Globs(p, 0, z, 0) != Match(p, 0, z, 0, g);
    } else {
      var z := NotGreedyDiffers(p, 0);
      GlobsIsMatch(p, 0, z, 0);
    }
  }

  /** A pattern that matches nothing by the rules. */
  lemma {:induction false} DeadPattern(p: string, g: bool)
    requires NoNul(p) && !Live(p, 0, true, g)
    ensures KeepsRules(p, g) <==> !Takes(p, 0, true)
  {
    forall z: string | NoNul(z) && Match(p, 0, z, 0, g) ensures false {
      MatchedIsLive(p, 0, z, 0, g);
    }
    if Takes(p, 0, true) {
      var z := TakesTakes(p, 0, true);
    } else {
      forall z: string | NoNul(z) && Globs(p, 0, z, 0) ensures false {
        TakenIsTakes(p, 0, z, 0);
      }
    }
  }

  // ---- Inputs ----

  /** `#?` lets 12 match by the rules; the function takes both digits for the `#`. */
  lemma NumberThenMark()
    ensures Match("#?", 0, "12", 0, false) && !Globs("#?", 0, "12", 0)
  {
    var p, z := "#?", "12";
    assert DigitsEnd(z, 0) == 2 by { assert DigitsEnd(z, 1) == 2; }
    assert Match(p, 1, z, 1, false);
    assert MatchNumber(p, 1, z, 0, false);
    assert !Globs(p, 1, z, 2);
  }

  /** `*[a`, whose class is not closed, matches nothing by the rules; the function lets it match
      everything but the empty string. */
  lemma {:induction false} OpenClass(g: bool)
    ensures !Live("*[a", 0, true, g) && Globs("*[a", 0, "x", 0) && !Match("*[a", 0, "x", 0, g)
  {
    var p := "*[a";
    assert RunEnd(p, 1) == 1 && Marks(p, 1) == 0;
    assert ItemsEnd(p, 2) == 4 by { assert ItemsEnd(p, 3) == 4; }
    assert ClassEnd(p, 1) == 4;
    assert forall c :: !InClass(p, 1, c);
    assert !HasChar(p, 1, true);
    assert !Live(p, 1, true, g);
    assert !Globs(p, 1, "x", 0);
    assert !Match(p, 1, "x", 0, g) && !Match(p, 1, "x", 1, g);
  }
}
