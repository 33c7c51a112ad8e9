/** What DROP CONSTRAINT and DROP NOT NULL do to the definitions of a table. */
module ConstraintEdits {
  import opened SqlTokens
  import opened ConstraintScan
  import opened ConstraintUnits
  import opened ConstraintLaws

  lemma {:induction false} GroupEndsInRP(z: seq<Tok>, i: nat, nest: nat)
    requires Closes(z, i, nest) && 0 < nest
    ensures i < GroupEnd(z, i, nest) <= |z| && z[GroupEnd(z, i, nest) - 1].kind.RP?
    decreases |z| - i
  {
    var n := Nesting(KindAt(z, i), nest);
    if n > 0 { GroupEndsInRP(z, i + 1, n); }
  }

  /** A step ends in a comma token only when it is that comma. */
  lemma {:induction false} StepOverComma(z: seq<Tok>, i: nat)
    requires !TokenKind(z, i).ILLEGAL?
    ensures i < TokenEnd(z, i) <= |z|
    ensures z[TokenEnd(z, i) - 1].kind.COMMA? <==> TokenKind(z, i).COMMA?
    ensures TokenKind(z, i).COMMA? ==> TokenEnd(z, i) == SkipSpace(z, i) + 1
  {
    var j := SkipSpace(z, i);
    TokenAfterSpace(z, i);
    SkipStops(z, i);
    if KindAt(z, j).LP? { GroupEndsInRP(z, j + 1, 1); }
  }

  /** The last step before `s`. */
  lemma {:induction false} LastStep(z: seq<Tok>, i: nat, s: nat) returns (c: nat)
    requires i <= |z| && Reaches(z, i, s) && i < s
    ensures i <= c < s && Reaches(z, i, c) && !Ends(TokenKind(z, c)) && TokenEnd(z, c) == s
    ensures Run(z, i, s) == Run(z, i, c) + [UnitAt(z, c)]
    decreases |z| - i
  {
    var e := TokenEnd(z, i);
    if e == s {
      c := i;
    } else {
      c := LastStep(z, e, s);
      AssocUnits([UnitAt(z, i)], Run(z, e, c), [UnitAt(z, c)]);
    }
  }

  /** The constraint is all of a definition that a comma precedes. */
  predicate IsWhole(z: seq<Tok>, s: nat, e: nat)
    requires 0 < s <= |z|
  {
    var t := KindAt(z, SkipSpace(z, e));
    (t.RP? || t.COMMA?) && z[s - 1].kind.COMMA?
  }

  lemma {:induction false} SkipForm(z: seq<Tok>, e: nat, first: bool)
    requires WellFormed(z, e, first)
    ensures WellFormed(z, SkipSpace(z, e), first)
  {
    SkipMore(z, e, SkipSpace(z, e));
  }

  /** Putting the well-formed rest of `z` from `e` on behind position `p` of `r`, with at most
      white space in between, leaves its units. */
  lemma {:induction false} RestMoves(z: seq<Tok>, e: nat, first: bool, r: seq<Tok>, p: nat)
    requires e <= |z| && WellFormed(z, e, first) && p <= |r|
    requires SkipSpace(r, p) == |r| - |z| + SkipSpace(z, e)
    requires Copied(z, SkipSpace(z, e), |z|, r, |r| - |z|)
    ensures Units(r, p) == Units(z, e)
  {
    var f := SkipSpace(z, e);
    SkipForm(z, e, first);
    CopiedUnits(z, f, r, |r| - |z|, f, first);
    UnitsSkip(z, e, f);
    UnitsSkip(r, p, SkipSpace(r, p));
  }

  lemma JoinedAt(z: seq<Tok>, p: nat, mid: seq<Tok>, f: nat, r: seq<Tok>)
    requires p <= |z| && f <= |z| && r == z[..p] + mid + z[f..]
    ensures |r| == p + |mid| + |z| - f
    ensures forall k :: 0 <= k < p ==> z[k] == r[k]
    ensures forall k :: 0 <= k < |mid| ==> mid[k] == r[k + p]
    ensures forall k :: f <= k < |z| ==> z[k] == r[k + (|r| - |z|)]
    ensures forall k :: 0 <= k <= p ==> r[..k] == z[..k]
  {
  }

  /** `r` is put together from the start of `z`, `mid` and the rest of `z` from `f` on. */
  ghost predicate IsJoin(z: seq<Tok>, p: nat, mid: seq<Tok>, f: nat, r: seq<Tok>)
  {
    && p <= |z| && f <= |z| && |r| == p + |mid| + |z| - f
    && Copied(z, 0, p, r, 0) && Copied(mid, 0, |mid|, r, p) && Copied(z, f, |z|, r, |r| - |z|)
  }

  lemma JoinedParts(z: seq<Tok>, p: nat, mid: seq<Tok>, f: nat, r: seq<Tok>)
    requires p <= |z| && f <= |z| && |r| == p + |mid| + |z| - f
    requires forall k :: 0 <= k < p ==> z[k] == r[k]
    requires forall k :: 0 <= k < |mid| ==> mid[k] == r[k + p]
    requires forall k :: f <= k < |z| ==> z[k] == r[k + (|r| - |z|)]
    ensures IsJoin(z, p, mid, f, r)
  {
    IsCopied(z, 0, p, r, 0);
    IsCopied(mid, 0, |mid|, r, p);
    IsCopied(z, f, |z|, r, |r| - |z|);
  }

  lemma Joined(z: seq<Tok>, p: nat, mid: seq<Tok>, f: nat, r: seq<Tok>)
    requires p <= |z| && f <= |z| && r == z[..p] + mid + z[f..]
    ensures IsJoin(z, p, mid, f, r)
    ensures forall k :: 0 <= k <= p ==> r[..k] == z[..k]
  {
    JoinedAt(z, p, mid, f, r);
    JoinedParts(z, p, mid, f, r);
  }

  /** From `c` on there is only white space, up to the copy of the rest of `z` from `f` on. */
  lemma {:induction false} SkipsTo(r: seq<Tok>, c: nat, p: nat, g: nat, z: seq<Tok>)
    requires c <= p <= g <= |r| && p <= |z| && Copied(z, 0, p, r, 0)
    requires SkipSpace(z, c) >= p && SkipSpace(r, p) == g
    ensures SkipSpace(r, c) == g
    decreases p - c
  {
    if c < p {
      CopiedAt(z, 0, p, r, 0, c);
      SkipsTo(r, c + 1, p, g, z);
    }
  }

  lemma {:induction false} SplicedRest(z: seq<Tok>, c: nat, p: nat, e: nat, first: bool, r: seq<Tok>)
    requires c <= p <= SkipSpace(z, c) && p <= |z| && p <= |r|
    requires e <= |z| && WellFormed(z, e, first)
    requires Copied(z, 0, p, r, 0) && Copied(z, SkipSpace(z, e), |z|, r, |r| - |z|)
    requires SkipSpace(r, p) == |r| - |z| + SkipSpace(z, e)
    ensures Units(r, c) == Units(z, e)
  {
    assert SkipSpace(r, c) == SkipSpace(r, p) by { SkipsTo(r, c, p, SkipSpace(r, p), z); }
    RestMoves(z, e, first, r, c);
  }

  /** Where `r` is `z` without what lies between the step positions `c` and `e`, with at most
      white space there instead. */
  lemma {:induction false} Spliced(z: seq<Tok>, body: nat, c: nat, p: nat, e: nat, r: seq<Tok>)
    requires body <= c <= p <= SkipSpace(z, c) && p <= |z| && p <= |r| && Reaches(z, body, c)
    requires Copied(z, 0, p, r, 0) && e <= |z|
    requires Units(r, c) == Units(z, e)
    ensures Units(r, body) == Run(z, body, c) + Units(z, e)
  {
    CopiedRun(z, 0, p, r, 0, body, c);
    RunThenUnits(r, body, c);
  }

  /** `mid` is what replaces the constraint: nothing, or one space. */
  lemma {:induction false} MidIsSkipped(z: seq<Tok>, p: nat, mid: seq<Tok>, e: nat, r: seq<Tok>)
    requires p <= |z| && SkipSpace(z, e) <= |z| && IsJoin(z, p, mid, SkipSpace(z, e), r)
    requires mid == [] || (|mid| == 1 && mid[0].kind.SPACE?)
    ensures SkipSpace(r, p) == |r| - |z| + SkipSpace(z, e)
  {
    var f := SkipSpace(z, e);
    SkipStops(z, e);
    if f < |z| { CopiedAt(z, f, |z|, r, |r| - |z|, f); }
    if |mid| == 1 { CopiedAt(mid, 0, 1, r, p, 0); }
  }

  /** `r` is `z` without the steps from `s` to `e`, and without the comma before them when they
      were a whole definition.  Every other definition, everything before the body and
      everything from its closing parenthesis on stays, token for token. */
  ghost predicate OneRunLess(z: seq<Tok>, body: nat, s: nat, e: nat, r: seq<Tok>)
  {
    && 0 < s < e <= |z| && body <= |z| && body <= |r| && Reaches(z, body, s) && Reaches(z, s, e)
    && Units(z, body) == Run(z, body, s) + (Run(z, s, e) + Units(z, e))
    && r[..body] == z[..body]
    && var before := Run(z, body, s);
       if IsWhole(z, s, e)
       then before != [] && before[|before| - 1].kind.COMMA?
            && Units(r, body) == before[..|before| - 1] + Units(z, e)
       else Units(r, body) == before + Units(z, e)
  }

  lemma {:induction false} CutTakesOneRun(z: seq<Tok>, body: nat, s: nat, e: nat)
    requires 0 < body <= |z| && KindAt(z, body - 1).LP? && Reaches(z, body, s)
    requires s < e <= |z| && Reaches(z, s, e) && WellFormed(z, e, false)
    ensures OneRunLess(z, body, s, e, Cut(z, s, e))
  {
    RunThenUnits(z, body, s);
    RunThenUnits(z, s, e);
    if IsWhole(z, s, e) {
      CutWhole(z, body, s, e);
    } else {
      CutPart(z, body, s, e);
    }
  }

  lemma {:induction false} CutPart(z: seq<Tok>, body: nat, s: nat, e: nat)
    requires 0 < body <= |z| && Reaches(z, body, s) && s < e <= |z| && WellFormed(z, e, false)
    requires !IsWhole(z, s, e)
    ensures var r := Cut(z, s, e);
      body <= |r| && r[..body] == z[..body] && Units(r, body) == Run(z, body, s) + Units(z, e)
  {
    var f := SkipSpace(z, e);
    var mid := if KindAt(z, f).RP? || KindAt(z, f).COMMA? then [] else [SPACE_TOK];
    var r := z[..s] + mid + z[f..];
    assert Cut(z, s, e) == r by { if mid == [] { assert r == z[..s] + z[f..]; } }
    Joined(z, s, mid, f, r);
    MidIsSkipped(z, s, mid, e, r);
    SplicedRest(z, s, s, e, false, r);
    Spliced(z, body, s, s, e, r);
  }

  lemma AllButLast(a: seq<Unit>, u: Unit)
    ensures (a + [u])[..|a + [u]| - 1] == a
  {
  }

  lemma {:induction false} CutWhole(z: seq<Tok>, body: nat, s: nat, e: nat)
    requires 0 < body <= |z| && KindAt(z, body - 1).LP? && Reaches(z, body, s) && 0 < s
    requires s < e <= |z| && WellFormed(z, e, false) && IsWhole(z, s, e)
    ensures var r := Cut(z, s, e);
      body <= |r| && r[..body] == z[..body]
    ensures var before := Run(z, body, s);
      && before != [] && before[|before| - 1].kind.COMMA?
      && Units(Cut(z, s, e), body) == before[..|before| - 1] + Units(z, e)
  {
    var c := LastStep(z, body, s);
    StepOverComma(z, c);
    CutComma(z, body, c, s, e);
    AllButLast(Run(z, body, c), UnitAt(z, c));
  }

  lemma {:induction false} CutComma(z: seq<Tok>, body: nat, c: nat, s: nat, e: nat)
    requires 0 < body <= |z| && Reaches(z, body, c) && s < e <= |z| && WellFormed(z, e, false)
    requires s == SkipSpace(z, c) + 1 && IsWhole(z, s, e)
    ensures var r := Cut(z, s, e);
      body <= |r| && r[..body] == z[..body] && Units(r, body) == Run(z, body, c) + Units(z, e)
  {
    var f := SkipSpace(z, e);
    var r := z[..s - 1] + [] + z[f..];
    assert Cut(z, s, e) == r;
    Joined(z, s - 1, [], f, r);
    MidIsSkipped(z, s - 1, [], e, r);
    SplicedRest(z, c, s - 1, e, false, r);
    Spliced(z, body, c, s - 1, e, r);
  }

  lemma {:induction false} BodyFollowsLP(z: seq<Tok>, i: nat)
    requires BodyStart(z, i).Some?
    ensures KindAt(z, BodyStart(z, i).value - 1).LP?
    decreases |z| - i
  {
    if !KindAt(z, i).LP? { BodyFollowsLP(z, i + 1); }
  }

  /** DROP CONSTRAINT and DROP NOT NULL take one run of steps out of one definition (for DROP NOT
      NULL, out of the definition of that column), and leave all other steps as they were. */
  lemma {:induction false} DropLeavesOthers(z: seq<Tok>, target: Target)
    requires BodyStart(z, 0).Some? && WellFormed(z, BodyStart(z, 0).value, true)
    requires Scan(z, BodyStart(z, 0).value, 0, target).Found?
    ensures var body := BodyStart(z, 0).value;
      var f := Scan(z, body, 0, target);
      && Reaches(z, body, f.start) && Within(z, f.start, f.end)
      && (target.NotNullOf? ==> Passed(z, body, f.start) == target.iCol)
      && Dropped(z, target).Text?
      && OneRunLess(z, body, f.start, f.end, Dropped(z, target).z)
  {
    var body := BodyStart(z, 0).value;
    var f := Scan(z, body, 0, target);
    assert f.start < f.end <= |z| && Reaches(z, body, f.start) && Within(z, f.start, f.end)
      && WellFormed(z, f.end, false)
      && (target.NotNullOf? ==> Passed(z, body, f.start) == target.iCol) by {
      FoundIsOneRun(z, body, true, 0, target);
    }
    assert OneRunLess(z, body, f.start, f.end, Cut(z, f.start, f.end)) by {
      BodyFollowsLP(z, 0);
      CutTakesOneRun(z, body, f.start, f.end);
    }
    assert Dropped(z, target) == Text(Cut(z, f.start, f.end));
  }
}
