/** ALTER COLUMN .. SET NOT NULL, which drops the NOT NULL of the column and adds the new one:
    the new constraint ends the definition of the column, and nothing else changes. */
module ConstraintSet {
  import opened Options
  import opened SqlTokens
  import opened ConstraintScan
  import opened ConstraintUnits
  import opened ConstraintLaws
  import opened ConstraintEdits
  import opened ConstraintNotNull
  import opened ConstraintRoundtrip

  // ---- Where the constraint goes ----

  lemma {:induction false} ColumnOn(z: seq<Tok>, i: nat, first: bool, d: nat, k: int)
    requires i <= |z| && Within(z, i, d) && ColumnNamed(z, i, first, k) && 0 < k
    ensures ColumnNamed(z, d, false, k)
    decreases |z| - i
  {
    if i != d { ColumnOn(z, TokenEnd(z, i), false, d, k); }
  }

  /** From the start of definition number zero, or from the comma before it. */
  lemma {:induction false} AddsToColumn(z: seq<Tok>, i: nat, first: bool, k: int) returns (p: nat)
    requires i <= |z| && WellFormed(z, i, first) && (first || TokenKind(z, i).COMMA?)
    requires ColumnNamed(z, if first then i else TokenEnd(z, i), true, k)
    ensures i <= p <= |z| && AddAt(z, i, k) == Some(p) && Reaches(z, i, p) && WellFormed(z, p, false)
    ensures TokenKind(z, p).COMMA? || TokenKind(z, p).RP?
    ensures Passed(z, i, p) == if first then k else k + 1
    decreases |z| - i
  {
    var e := TokenEnd(z, i);
    p := DefinitionEnds(z, e, !first);
    WithinThen(z, e, p, p);
    if k != 0 {
      var d := p;
      ColumnOn(z, if first then i else e, true, d, k);
      p := AddsToColumn(z, d, false, k - 1);
      WithinThen(z, e, d, p);
    }
  }

  /** `cons` is read as part of one definition, whatever comes after it. */
  ghost predicate IsConstraint(cons: seq<Tok>)
  {
    cons != [] && Within(cons + [CLOSE], 0, |cons|)
  }

  /** What is read of `cons`. */
  ghost function UnitsOf(cons: seq<Tok>): seq<Unit>
    requires IsConstraint(cons)
  {
    Run(cons + [CLOSE], 0, |cons|)
  }

  /** `r` is `z` with a space and the first `n` tokens of `c` put in at `q`. */
  ghost predicate IsInserted(z: seq<Tok>, c: seq<Tok>, n: nat, q: nat, r: seq<Tok>)
  {
    && q <= |z| && |r| == |z| + n + 1 && r[q] == SPACE_TOK
    && Copied(z, 0, q, r, 0) && Copied(c, 0, n, r, q + 1) && Copied(z, q, |z|, r, n + 1)
  }

  lemma InsertedAt(z: seq<Tok>, cons: seq<Tok>, q: nat, r: seq<Tok>)
    requires q <= |z| && r == z[..q] + [SPACE_TOK] + cons + z[q..]
    ensures |r| == |z| + |cons| + 1 && r[q] == SPACE_TOK
    ensures forall k :: 0 <= k < q ==> z[k] == r[k]
    ensures forall k :: 0 <= k < |cons| ==> (cons + [CLOSE])[k] == r[k + (q + 1)]
    ensures forall k :: q <= k < |z| ==> z[k] == r[k + (|cons| + 1)]
  {
  }

  lemma InsertedParts(z: seq<Tok>, cons: seq<Tok>, q: nat, r: seq<Tok>)
    requires q <= |z| && r == z[..q] + [SPACE_TOK] + cons + z[q..]
    ensures IsInserted(z, cons + [CLOSE], |cons|, q, r)
  {
    InsertedAt(z, cons, q, r);
    IsCopied(z, 0, q, r, 0);
    IsCopied(cons + [CLOSE], 0, |cons|, r, q + 1);
    IsCopied(z, q, |z|, r, |cons| + 1);
  }

  /** The copy of the rest of the old text. */
  lemma InsertedTail(z: seq<Tok>, n: nat, p: nat, q: nat, r: seq<Tok>)
    requires p <= |z| && q == SkipSpace(z, p) && WellFormed(z, p, false)
    requires q <= |z| && |r| == |z| + n + 1 && Copied(z, q, |z|, r, n + 1)
    ensures Units(r, q + 1 + n) == Units(z, p)
  {
    SkipForm(z, p, false);
    CopiedUnits(z, q, r, n + 1, q, false);
    UnitsSkip(z, p, q);
  }

  /** The white space before the constraint. */
  lemma InsertedSpace(z: seq<Tok>, p: nat, q: nat, r: seq<Tok>)
    requires p <= |z| && q == SkipSpace(z, p) && q < |r| && r[q] == SPACE_TOK
    requires Copied(z, 0, q, r, 0)
    ensures Units(r, p) == Units(r, q + 1)
  {
    assert SkipSpace(r, q) == SkipSpace(r, q + 1);
    SkipsTo(r, p, q, SkipSpace(r, q), z);
    UnitsSkip(r, p, q + 1);
  }

  /** The constraint itself, in front of `rest`. */
  lemma InsertedRun(c: seq<Tok>, n: nat, r: seq<Tok>, d: nat, rest: seq<Unit>)
    requires Copied(c, 0, n, r, d) && Reaches(c, 0, n) && d + n <= |r| && Units(r, d + n) == rest
    ensures Units(r, d) == Run(c, 0, n) + rest
  {
    CopiedRun(c, 0, n, r, d, 0, n);
    RunThenUnits(r, d, d + n);
  }

  /** What comes before the constraint, in front of `rest`. */
  lemma {:induction false} InsertedFront(z: seq<Tok>, body: nat, p: nat, q: nat, r: seq<Tok>, rest: seq<Unit>)
    requires body <= p <= q && Copied(z, 0, q, r, 0) && Reaches(z, body, p) && Units(r, p) == rest
    ensures Units(r, body) == Run(z, body, p) + rest
  {
    CopiedRun(z, 0, q, r, 0, body, p);
    RunThenUnits(r, body, p);
  }

  lemma AddedIsInserted(z: seq<Tok>, body: nat, cons: seq<Tok>, k: int, p: nat) returns (r: seq<Tok>)
    requires BodyStart(z, 0) == Some(body) && p <= |z| && AddAt(z, body, k) == Some(p) && 0 <= k
    ensures Added(z, cons, k) == Some(r) && IsInserted(z, cons + [CLOSE], |cons|, SkipSpace(z, p), r)
  {
    var q := SkipSpace(z, p);
    r := z[..q] + [SPACE_TOK] + cons + z[q..];
    InsertedParts(z, cons, q, r);
  }

  /** From `p` on, the new text reads as the constraint and then as the old text from `p` on. */
  lemma {:induction false} InsertedRest(z: seq<Tok>, c: seq<Tok>, n: nat, p: nat, q: nat, r: seq<Tok>)
    requires p <= |z| && q == SkipSpace(z, p) && IsInserted(z, c, n, q, r)
    requires WellFormed(z, p, false) && Reaches(c, 0, n)
    ensures Units(r, p) == Run(c, 0, n) + Units(z, p)
  {
    var x := Run(c, 0, n) + Units(z, p);
    assert Units(r, q + 1) == x by {
      var rest := Units(z, p);
      assert Units(r, q + 1 + n) == rest by { InsertedTail(z, n, p, q, r); }
      InsertedRun(c, n, r, q + 1, rest);
    }
    InsertedSpace(z, p, q, r);
  }

  lemma {:induction false} InsertedUnits(z: seq<Tok>, body: nat, c: seq<Tok>, n: nat, p: nat, q: nat, r: seq<Tok>)
    requires body <= p <= |z| && q == SkipSpace(z, p) && IsInserted(z, c, n, q, r)
    requires Reaches(z, body, p) && WellFormed(z, p, false) && Reaches(c, 0, n)
    ensures Units(r, body) == Run(z, body, p) + (Run(c, 0, n) + Units(z, p))
  {
    var rest := Run(c, 0, n) + Units(z, p);
    assert Units(r, p) == rest by { InsertedRest(z, c, n, p, q, r); }
    InsertedFront(z, body, p, q, r, rest);
  }

  /** A constraint added to column `k` comes at the end of that definition; every other step
      stays. */
  lemma AddsAtColumnEnd(z: seq<Tok>, body: nat, cons: seq<Tok>, k: int) returns (p: nat)
    requires BodyStart(z, 0) == Some(body) && WellFormed(z, body, true) && ColumnNamed(z, body, true, k)
    requires IsConstraint(cons) && 0 <= k
    ensures body <= p <= |z| && Reaches(z, body, p) && Passed(z, body, p) == k
    ensures TokenKind(z, p).COMMA? || TokenKind(z, p).RP?
    ensures Added(z, cons, k).Some?
    ensures var r := Added(z, cons, k).value;
      && body <= |r| && BodyStart(r, 0) == Some(body)
      && Units(r, body) == Run(z, body, p) + (UnitsOf(cons) + Units(z, p))
  {
    p := AddsToColumn(z, body, true, k);
    var r := AddedIsInserted(z, body, cons, k, p);
    BodyStartCopied(z, SkipSpace(z, p), r, 0);
    InsertedUnits(z, body, cons + [CLOSE], |cons|, p, SkipSpace(z, p), r);
  }

  // ---- A constraint of the table ----

  /** `r` is `z` with a comma, a space and the first `n` tokens of `c` put in at `q`. */
  ghost predicate IsAppended(z: seq<Tok>, c: seq<Tok>, n: nat, q: nat, r: seq<Tok>)
  {
    && q <= |z| && |r| == |z| + n + 2 && r[q] == Tok(COMMA, ",") && r[q + 1] == SPACE_TOK
    && Copied(z, 0, q, r, 0) && Copied(c, 0, n, r, q + 2) && Copied(z, q, |z|, r, n + 2)
  }

  lemma AppendedAt(z: seq<Tok>, cons: seq<Tok>, q: nat, r: seq<Tok>)
    requires q <= |z| && r == z[..q] + [Tok(COMMA, ","), SPACE_TOK] + cons + z[q..]
    ensures |r| == |z| + |cons| + 2 && r[q] == Tok(COMMA, ",") && r[q + 1] == SPACE_TOK
    ensures forall k :: 0 <= k < q ==> z[k] == r[k]
    ensures forall k :: 0 <= k < |cons| ==> (cons + [CLOSE])[k] == r[k + (q + 2)]
    ensures forall k :: q <= k < |z| ==> z[k] == r[k + (|cons| + 2)]
  {
  }

  lemma AppendedParts(z: seq<Tok>, cons: seq<Tok>, q: nat, r: seq<Tok>)
    requires q <= |z| && r == z[..q] + [Tok(COMMA, ","), SPACE_TOK] + cons + z[q..]
    ensures IsAppended(z, cons + [CLOSE], |cons|, q, r)
  {
    AppendedAt(z, cons, q, r);
    IsCopied(z, 0, q, r, 0);
    IsCopied(cons + [CLOSE], 0, |cons|, r, q + 2);
    IsCopied(z, q, |z|, r, |cons| + 2);
  }

  lemma AppendedTail(z: seq<Tok>, n: nat, p: nat, q: nat, r: seq<Tok>)
    requires p <= |z| && q == SkipSpace(z, p) && WellFormed(z, p, false)
    requires q <= |z| && |r| == |z| + n + 2 && Copied(z, q, |z|, r, n + 2)
    ensures Units(r, q + 2 + n) == Units(z, p)
  {
    SkipForm(z, p, false);
    CopiedUnits(z, q, r, n + 2, q, false);
    UnitsSkip(z, p, q);
  }

  /** The comma and the space before the constraint. */
  lemma AppendedComma(z: seq<Tok>, p: nat, q: nat, r: seq<Tok>)
    requires p <= |z| && q == SkipSpace(z, p) && q + 1 < |r| && r[q] == Tok(COMMA, ",") && r[q + 1] == SPACE_TOK
    requires Copied(z, 0, q, r, 0)
    ensures Units(r, p) == [Unit(COMMA, [Tok(COMMA, ",")])] + Units(r, q + 2)
  {
    SkipsToComma(z, p, q, r);
    TokenAfterSpace(r, p);
    assert Piece(r, q, q + 1) == [r[q]];
    assert SkipSpace(r, q + 1) == SkipSpace(r, q + 2);
    UnitsSkip(r, q + 1, q + 2);
  }

  /** A constraint of the table becomes a definition of its own, the last one, and every other
      step stays. */
  lemma AddsDefinition(z: seq<Tok>, body: nat, cons: seq<Tok>) returns (p: nat)
    requires BodyStart(z, 0) == Some(body) && WellFormed(z, body, true) && IsConstraint(cons)
    ensures body <= p <= |z| && Reaches(z, body, p) && TokenKind(z, p).RP?
    ensures Added(z, cons, -1).Some?
    ensures var r := Added(z, cons, -1).value;
      && body <= |r| && BodyStart(r, 0) == Some(body)
      && Units(r, body) ==
         Run(z, body, p) + ([Unit(COMMA, [Tok(COMMA, ",")])] + (UnitsOf(cons) + Units(z, p)))
  {
    p := AddsAtTheEnd(z, body, true);
    var q := SkipSpace(z, p);
    AddsAt(z, cons, body, p);
    var r := z[..q] + [Tok(COMMA, ","), SPACE_TOK] + cons + z[q..];
    AppendedParts(z, cons, q, r);
    BodyStartCopied(z, q, r, 0);
    AppendedUnits(z, body, cons + [CLOSE], |cons|, p, q, r);
  }

  /** Behind the comma, the new text reads as the constraint and then as the old text. */
  lemma AppendedRun(z: seq<Tok>, c: seq<Tok>, n: nat, p: nat, q: nat, r: seq<Tok>)
    requires p <= |z| && q == SkipSpace(z, p) && q <= |z| && |r| == |z| + n + 2
    requires Copied(c, 0, n, r, q + 2) && Copied(z, q, |z|, r, n + 2)
    requires WellFormed(z, p, false) && Reaches(c, 0, n)
    ensures Units(r, q + 2) == Run(c, 0, n) + Units(z, p)
  {
    var rest := Units(z, p);
    assert Units(r, q + 2 + n) == rest by { AppendedTail(z, n, p, q, r); }
    InsertedRun(c, n, r, q + 2, rest);
  }

  lemma {:induction false} AppendedUnits(z: seq<Tok>, body: nat, c: seq<Tok>, n: nat, p: nat, q: nat, r: seq<Tok>)
    requires body <= p <= |z| && q == SkipSpace(z, p) && IsAppended(z, c, n, q, r)
    requires Reaches(z, body, p) && WellFormed(z, p, false) && Reaches(c, 0, n)
    ensures Units(r, body) == Run(z, body, p) + ([Unit(COMMA, [Tok(COMMA, ",")])] + (Run(c, 0, n) + Units(z, p)))
  {
    var x := Run(c, 0, n) + Units(z, p);
    assert Units(r, q + 2) == x by { AppendedRun(z, c, n, p, q, r); }
    var rest := [Unit(COMMA, [Tok(COMMA, ",")])] + x;
    assert Units(r, p) == rest by { AppendedComma(z, p, q, r); }
    InsertedFront(z, body, p, q, r, rest);
  }

  // ---- How often the column is NOT NULL then ----

  /** Counting up to a place in the definition does not depend on what follows that place. */
  lemma {:induction false} CountsBefore(z: seq<Tok>, i: nat, p: nat, k: int, x: seq<Unit>, y: seq<Unit>)
    requires i <= |z| && Reaches(z, i, p) && Passed(z, i, p) == k
    requires x != [] && y != [] && !x[0].kind.NULL? && !y[0].kind.NULL?
    ensures NotNulls(Run(z, i, p) + x, k) - NotNulls(x, 0) == NotNulls(Run(z, i, p) + y, k) - NotNulls(y, 0)
    decreases |z| - i
  {
    if i == p {
      assert Run(z, i, p) + x == x && Run(z, i, p) + y == y;
    } else {
      var e := TokenEnd(z, i);
      CountsBefore(z, e, p, if TokenKind(z, i).COMMA? then k - 1 else k, x, y);
      AssocUnits([UnitAt(z, i)], Run(z, e, p), x);
      AssocUnits([UnitAt(z, i)], Run(z, e, p), y);
      NotNullsCons(UnitAt(z, i), Run(z, e, p) + x, k);
      NotNullsCons(UnitAt(z, i), Run(z, e, p) + y, k);
    }
  }

  /** A definition ends at a comma or at the closing parenthesis. */
  lemma {:induction false} CountsNoFurther(z: seq<Tok>, i: nat, p: nat, y: seq<Unit>)
    requires i <= |z| && Within(z, i, p) && y != [] && (y[0].kind.COMMA? || Ends(y[0].kind))
    ensures NotNulls(Run(z, i, p) + y, 0) == NotNulls(Run(z, i, p), 0)
    decreases |z| - i
  {
    if i == p {
      assert Run(z, i, p) + y == y;
    } else {
      var e := TokenEnd(z, i);
      CountsNoFurther(z, e, p, y);
      AssocUnits([UnitAt(z, i)], Run(z, e, p), y);
      NotNullsCons(UnitAt(z, i), Run(z, e, p) + y, 0);
      NotNullsCons(UnitAt(z, i), Run(z, e, p), 0);
    }
  }

  /** Adding a constraint to a column adds its NOT NULLs to those of the column. */
  lemma {:induction false} AddCounts(z: seq<Tok>, body: nat, cons: seq<Tok>, k: int)
    requires BodyStart(z, 0) == Some(body) && WellFormed(z, body, true) && ColumnNamed(z, body, true, k)
    requires IsConstraint(cons) && cons[0].kind.NOT? && 0 <= k
    ensures Added(z, cons, k).Some?
    ensures var r := Added(z, cons, k).value;
      && body <= |r| && BodyStart(r, 0) == Some(body)
      && NotNulls(Units(r, body), k) == NotNulls(Units(z, body), k) + NotNulls(UnitsOf(cons), 0)
  {
    var p := AddsAtColumnEnd(z, body, cons, k);
    var c, y := UnitsOf(cons), Units(z, p);
    assert c[0] == UnitAt(cons + [CLOSE], 0);
    assert TokenKind(cons + [CLOSE], 0).NOT?;
    CountsNoFurther(cons + [CLOSE], 0, |cons|, y);
    CountsBefore(z, body, p, k, c + y, y);
    RunThenUnits(z, body, p);
  }

  // ---- SET NOT NULL: drop, then add ----

  /** The statement that SET NOT NULL stores, or None where either step gives an error. */
  function NotNullSet(z: seq<Tok>, cons: seq<Tok>, k: int): Option<seq<Tok>>
  {
    var d := Dropped(z, NotNullOf(k));
    if d.Text? then Added(d.z, cons, k) else None
  }

  /** `WellFormed` and `ColumnNamed`, on the steps. */
  predicate Form(us: seq<Unit>, first: bool)
  {
    us != [] && var t := us[0].kind;
    if Ends(t) then t.RP? && !first
    else if t.COMMA? then !first && Form(us[1..], true)
    else (t.CONSTRAINT? ==> 1 < |us| && NameKind(us[1].kind)) && Form(us[1..], false)
  }

  predicate Named(us: seq<Unit>, first: bool, k: int)
  {
    us != [] && var t := us[0].kind;
    if k == 0 then first ==> NameKind(t)
    else !Ends(t) && k > 0 && Named(us[1..], t.COMMA?, if t.COMMA? then k - 1 else k)
  }

  lemma {:induction false} UnitsCons(z: seq<Tok>, i: nat)
    requires i <= |z|
    ensures Units(z, i) != [] && Units(z, i)[0].kind == TokenKind(z, i)
    ensures !Ends(TokenKind(z, i)) ==> Units(z, i)[1..] == Units(z, TokenEnd(z, i))
  {
  }

  lemma {:induction false} FormIsWellFormed(z: seq<Tok>, i: nat, first: bool)
    requires i <= |z|
    ensures Form(Units(z, i), first) <==> WellFormed(z, i, first)
    decreases |z| - i
  {
    UnitsCons(z, i);
    var t, e := TokenKind(z, i), TokenEnd(z, i);
    if !Ends(t) {
      UnitsCons(z, e);
      FormIsWellFormed(z, e, t.COMMA?);
    }
  }

  lemma {:induction false} NamedIsColumnNamed(z: seq<Tok>, i: nat, first: bool, k: int)
    requires i <= |z|
    ensures Named(Units(z, i), first, k) <==> ColumnNamed(z, i, first, k)
    decreases |z| - i
  {
    UnitsCons(z, i);
    var t := TokenKind(z, i);
    if !Ends(t) && k > 0 { NamedIsColumnNamed(z, TokenEnd(z, i), t.COMMA?, if t.COMMA? then k - 1 else k); }
  }

  /** The steps before a constraint of column `k`, with another rest behind them. */
  lemma {:induction false} FormStays(z: seq<Tok>, i: nat, first: bool, k: int, s: nat, rest: seq<Unit>)
    requires i < s && i <= |z| && Reaches(z, i, s) && Passed(z, i, s) == k
    requires WellFormed(z, i, first) && ColumnNamed(z, i, first, k) && !NameKind(TokenKind(z, s))
    requires Form(rest, false)
    ensures Form(Run(z, i, s) + rest, first) && Named(Run(z, i, s) + rest, first, k)
    decreases |z| - i
  {
    var t, e := TokenKind(z, i), TokenEnd(z, i);
    var us := Run(z, i, s) + rest;
    AssocUnits([UnitAt(z, i)], Run(z, e, s), rest);
    assert us[0] == UnitAt(z, i) && us[1..] == Run(z, e, s) + rest;
    if e == s {
      assert Run(z, e, s) + rest == rest;
    } else {
      FormStays(z, e, t.COMMA?, if t.COMMA? then k - 1 else k, s, rest);
      assert us[1] == UnitAt(z, e);
    }
  }

  /** What DROP NOT NULL leaves of column `k`: the steps up to `s` and from `e` on. */
  lemma DropParts(z: seq<Tok>, body: nat, k: int) returns (s: nat, e: nat)
    requires BodyStart(z, 0) == Some(body) && WellFormed(z, body, true) && ColumnNamed(z, body, true, k)
    requires FirstNot(z, body, k).Some?
    ensures Scan(z, body, 0, NotNullOf(k)) == Found(s, e)
    ensures body < s < e <= |z| && Reaches(z, body, s) && Passed(z, body, s) == k && Within(z, s, e)
    ensures !NameKind(TokenKind(z, s)) && WellFormed(z, e, false)
    ensures Dropped(z, NotNullOf(k)).Text?
    ensures var d := Dropped(z, NotNullOf(k)).z;
      body <= |d| && d[..body] == z[..body] && Units(d, body) == Run(z, body, s) + Units(z, e)
  {
    var q := FirstNot(z, body, k).value;
    assert Takes(z, Scan(z, body, 0, NotNullOf(k)), body, Some(q)) by { ScanFindsFirstNot(z, body, true, 0, k); }
    var f := Scan(z, body, 0, NotNullOf(k));
    s, e := f.start, f.end;
    FoundIsOneRun(z, body, true, 0, NotNullOf(k));
    DropLeavesOthers(z, NotNullOf(k));
    assert KindAt(z, body - 1).LP? by { BodyFollowsLP(z, 0); }
    TakenIsPart(z, body, k, s, e);
  }

  lemma {:induction false} DroppedIsFormed(z: seq<Tok>, body: nat, k: int)
    requires BodyStart(z, 0) == Some(body) && WellFormed(z, body, true) && ColumnNamed(z, body, true, k)
    ensures Dropped(z, NotNullOf(k)).Text?
    ensures var d := Dropped(z, NotNullOf(k)).z;
      BodyStart(d, 0) == Some(body) && WellFormed(d, body, true) && ColumnNamed(d, body, true, k)
  {
    if FirstNot(z, body, k) == None {
      NothingTaken(z, body, k);
    } else {
      var s, e := DropParts(z, body, k);
      var d := Dropped(z, NotNullOf(k)).z;
      FormIsWellFormed(z, e, false);
      FormStays(z, body, true, k, s, Units(z, e));
      FormIsWellFormed(d, body, true);
      NamedIsColumnNamed(d, body, true, k);
      BodyStays(z, body, d);
    }
  }

  lemma {:induction false} BodyStays(z: seq<Tok>, body: nat, d: seq<Tok>)
    requires BodyStart(z, 0) == Some(body) && body <= |d| && d[..body] == z[..body]
    ensures BodyStart(d, 0) == Some(body)
  {
    forall j | 0 <= j < body ensures z[j] == d[j + 0] {
      assert z[..body][j] == d[..body][j];
    }
    IsCopied(z, 0, body, d, 0);
    BodyStartCopied(z, body, d, 0);
  }

  /** SET NOT NULL adds the NOT NULLs of the new constraint to those of the column, after it has
      taken one away if NULL follows the first NOT of the column. */
  lemma {:induction false} SetNotNullCounts(z: seq<Tok>, body: nat, cons: seq<Tok>, k: int)
    requires BodyStart(z, 0) == Some(body) && WellFormed(z, body, true) && ColumnNamed(z, body, true, k)
    requires IsConstraint(cons) && cons[0].kind.NOT? && 0 <= k
    ensures NotNullSet(z, cons, k).Some?
    ensures var r := NotNullSet(z, cons, k).value;
      && body <= |r| && BodyStart(r, 0) == Some(body)
      && NotNulls(Units(r, body), k) + (if FirstIsNotNull(z, body, k) then 1 else 0)
         == NotNulls(Units(z, body), k) + NotNulls(UnitsOf(cons), 0)
  {
    DroppedIsFormed(z, body, k);
    DropNotNullCounts(z, body, k);
    AddCounts(Dropped(z, NotNullOf(k)).z, body, cons, k);
  }

  // ---- The other definitions ----

  /** The steps of definition number `j`. */
  function Definition(us: seq<Unit>, j: nat): seq<Unit>
  {
    if us == [] || Ends(us[0].kind) then []
    else if us[0].kind.COMMA? then if j == 0 then [] else Definition(us[1..], j - 1)
    else (if j == 0 then [us[0]] else []) + Definition(us[1..], j)
  }

  lemma DefinitionCons(u: Unit, rest: seq<Unit>, j: nat)
    requires !Ends(u.kind)
    ensures Definition([u] + rest, j) ==
            if u.kind.COMMA? then if j == 0 then [] else Definition(rest, j - 1)
            else (if j == 0 then [u] else []) + Definition(rest, j)
  {
    assert ([u] + rest)[1..] == rest;
  }

  /** What stands inside one definition is no part of the ones after it. */
  lemma {:induction false} WithinIsOne(z: seq<Tok>, i: nat, p: nat, rest: seq<Unit>, j: nat)
    requires i <= |z| && Within(z, i, p) && 0 < j
    ensures Definition(Run(z, i, p) + rest, j) == Definition(rest, j)
    decreases |z| - i
  {
    if i == p {
      assert Run(z, i, p) + rest == rest;
    } else {
      var e := TokenEnd(z, i);
      WithinIsOne(z, e, p, rest, j);
      AssocUnits([UnitAt(z, i)], Run(z, e, p), rest);
      DefinitionCons(UnitAt(z, i), Run(z, e, p) + rest, j);
    }
  }

  /** A change in definition `k` leaves definition `j`. */
  lemma {:induction false} OthersStay(z: seq<Tok>, i: nat, p: nat, k: int, x: seq<Unit>, y: seq<Unit>, j: nat)
    requires i <= |z| && Reaches(z, i, p) && Passed(z, i, p) == k && j != k
    requires k < j ==> Definition(x, j - k) == Definition(y, j - k)
    ensures Definition(Run(z, i, p) + x, j) == Definition(Run(z, i, p) + y, j)
    decreases |z| - i
  {
    if i == p {
      assert Run(z, i, p) + x == x && Run(z, i, p) + y == y;
    } else {
      var e, t := TokenEnd(z, i), TokenKind(z, i);
      if !t.COMMA? {
        OthersStay(z, e, p, k, x, y, j);
      } else if j > 0 {
        OthersStay(z, e, p, k - 1, x, y, j - 1);
      }
      AssocUnits([UnitAt(z, i)], Run(z, e, p), x);
      AssocUnits([UnitAt(z, i)], Run(z, e, p), y);
      DefinitionCons(UnitAt(z, i), Run(z, e, p) + x, j);
      DefinitionCons(UnitAt(z, i), Run(z, e, p) + y, j);
    }
  }

  /** Something else from a place in definition `k` on. */
  lemma OthersStayHere(z: seq<Tok>, i: nat, p: nat, k: int, y: seq<Unit>, j: nat)
    requires i <= |z| && Reaches(z, i, p) && Passed(z, i, p) == k && j != k
    requires k < j ==> Definition(y, j - k) == Definition(Units(z, p), j - k)
    ensures Definition(Run(z, i, p) + y, j) == Definition(Units(z, i), j)
  {
    OthersStay(z, i, p, k, y, Units(z, p), j);
    RunThenUnits(z, i, p);
  }

  lemma {:induction false} InsertLeavesOthers(z: seq<Tok>, i: nat, p: nat, k: int, c: seq<Tok>, n: nat, j: nat)
    requires i <= |z| && Reaches(z, i, p) && Passed(z, i, p) == k && j != k && Within(c, 0, n)
    ensures Definition(Run(z, i, p) + (Run(c, 0, n) + Units(z, p)), j) == Definition(Units(z, i), j)
  {
    if k < j { WithinIsOne(c, 0, n, Units(z, p), j - k); }
    OthersStayHere(z, i, p, k, Run(c, 0, n) + Units(z, p), j);
  }

  lemma {:induction false} AddLeavesOthers(z: seq<Tok>, body: nat, cons: seq<Tok>, k: int, j: nat)
    requires BodyStart(z, 0) == Some(body) && WellFormed(z, body, true) && ColumnNamed(z, body, true, k)
    requires IsConstraint(cons) && 0 <= k != j
    ensures Added(z, cons, k).Some? && body <= |Added(z, cons, k).value|
    ensures Definition(Units(Added(z, cons, k).value, body), j) == Definition(Units(z, body), j)
  {
    var p := AddsAtColumnEnd(z, body, cons, k);
    InsertLeavesOthers(z, body, p, k, cons + [CLOSE], |cons|, j);
  }

  lemma {:induction false} WithinUnits(z: seq<Tok>, s: nat, e: nat, j: nat)
    requires s <= |z| && Within(z, s, e) && 0 < j
    ensures Definition(Units(z, e), j) == Definition(Units(z, s), j)
  {
    RunThenUnits(z, s, e);
    WithinIsOne(z, s, e, Units(z, e), j);
  }

  lemma {:induction false} RemoveLeavesOthers(z: seq<Tok>, i: nat, s: nat, e: nat, k: int, j: nat)
    requires i <= |z| && Reaches(z, i, s) && Passed(z, i, s) == k && j != k && Within(z, s, e)
    ensures Definition(Run(z, i, s) + Units(z, e), j) == Definition(Units(z, i), j)
  {
    if k < j { WithinUnits(z, s, e, j - k); }
    OthersStayHere(z, i, s, k, Units(z, e), j);
  }

  lemma {:induction false} TakenLeavesOthers(z: seq<Tok>, body: nat, k: int, j: nat)
    requires BodyStart(z, 0) == Some(body) && WellFormed(z, body, true) && ColumnNamed(z, body, true, k)
    requires FirstNot(z, body, k).Some? && j != k
    ensures Dropped(z, NotNullOf(k)).Text? && body <= |Dropped(z, NotNullOf(k)).z|
    ensures Definition(Units(Dropped(z, NotNullOf(k)).z, body), j) == Definition(Units(z, body), j)
  {
    var s, e := DropParts(z, body, k);
    var us := Run(z, body, s) + Units(z, e);
    assert Definition(us, j) == Definition(Units(z, body), j) by { RemoveLeavesOthers(z, body, s, e, k, j); }
  }

  lemma {:induction false} DropLeavesColumns(z: seq<Tok>, body: nat, k: int, j: nat)
    requires BodyStart(z, 0) == Some(body) && WellFormed(z, body, true) && ColumnNamed(z, body, true, k)
    requires j != k
    ensures Dropped(z, NotNullOf(k)).Text? && body <= |Dropped(z, NotNullOf(k)).z|
    ensures Definition(Units(Dropped(z, NotNullOf(k)).z, body), j) == Definition(Units(z, body), j)
  {
    if FirstNot(z, body, k) == None {
      NothingTaken(z, body, k);
    } else {
      TakenLeavesOthers(z, body, k, j);
    }
  }

  /** SET NOT NULL leaves every other definition. */
  lemma {:induction false} SetNotNullLeavesOthers(z: seq<Tok>, body: nat, cons: seq<Tok>, k: int, j: nat)
    requires BodyStart(z, 0) == Some(body) && WellFormed(z, body, true) && ColumnNamed(z, body, true, k)
    requires IsConstraint(cons) && 0 <= k != j
    ensures NotNullSet(z, cons, k).Some? && body <= |NotNullSet(z, cons, k).value|
    ensures Definition(Units(NotNullSet(z, cons, k).value, body), j) == Definition(Units(z, body), j)
  {
    DroppedIsFormed(z, body, k);
    DropLeavesColumns(z, body, k, j);
    AddLeavesOthers(Dropped(z, NotNullOf(k)).z, body, cons, k, j);
  }
}
