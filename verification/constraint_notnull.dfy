/** What ALTER COLUMN .. DROP NOT NULL does to the NOT NULL constraints of a column, and when it
    does what it says. */
module ConstraintNotNull {
  import opened Options
  import opened SqlTokens
  import opened ConstraintScan
  import opened ConstraintUnits
  import opened ConstraintLaws
  import opened ConstraintEdits

  /** How often NOT is directly followed by NULL, outside parentheses, in definition number `k`
      of a body. */
  function NotNulls(body: seq<Unit>, k: int): nat
  {
    if body == [] || Ends(body[0].kind) || (body[0].kind.COMMA? && k == 0) then 0
    else
      (if k == 0 && body[0].kind.NOT? && 1 < |body| && body[1].kind.NULL? then 1 else 0)
      + NotNulls(body[1..], if body[0].kind.COMMA? then k - 1 else k)
  }

  /** Definition number `k` counted from `i` starts with a column name.  `first`: a definition
      starts at `i`. */
  predicate ColumnNamed(z: seq<Tok>, i: nat, first: bool, k: int)
    decreases |z| - i
  {
    var t := TokenKind(z, i);
    if k == 0 then first ==> NameKind(t)
    else !Ends(t) && k > 0 && ColumnNamed(z, TokenEnd(z, i), t.COMMA?, if t.COMMA? then k - 1 else k)
  }

  lemma {:induction false} NotNullsCons(u: Unit, rest: seq<Unit>, k: int)
    ensures Ends(u.kind) || (u.kind.COMMA? && k == 0) ==> NotNulls([u] + rest, k) == 0
    ensures !Ends(u.kind) && (!u.kind.COMMA? || k != 0) ==>
      NotNulls([u] + rest, k)
      == (if k == 0 && u.kind.NOT? && rest != [] && rest[0].kind.NULL? then 1 else 0)
         + NotNulls(rest, if u.kind.COMMA? then k - 1 else k)
  {
    assert ([u] + rest)[1..] == rest;
  }

  // ---- The NOT that the search stops at ----

  lemma {:induction false} FirstNotReached(z: seq<Tok>, i: nat, k: int)
    requires FirstNot(z, i, k).Some?
    ensures var q := FirstNot(z, i, k).value;
      TokenKind(z, q).NOT? && Reaches(z, i, q) && Passed(z, i, q) == k
    decreases |z| - i
  {
    var t := TokenKind(z, i);
    if !t.NOT? || k != 0 { FirstNotReached(z, TokenEnd(z, i), if t.COMMA? then k - 1 else k); }
  }

  /** Before the first NOT of the definition, nothing counts. */
  lemma {:induction false} NothingBefore(z: seq<Tok>, i: nat, s: nat, k: int, rest: seq<Unit>)
    requires i <= |z| && Reaches(z, i, s) && FirstNot(z, i, k).Some? && s <= FirstNot(z, i, k).value
    ensures NotNulls(Run(z, i, s) + rest, k) == NotNulls(rest, k - Passed(z, i, s))
    decreases |z| - i
  {
    if i == s {
      assert Run(z, i, s) + rest == rest;
    } else {
      var t, e := TokenKind(z, i), TokenEnd(z, i);
      var k' := if t.COMMA? then k - 1 else k;
      NothingBefore(z, e, s, k', rest);
      AssocUnits([UnitAt(z, i)], Run(z, e, s), rest);
      NotNullsCons(UnitAt(z, i), Run(z, e, s) + rest, k);
    }
  }

  lemma {:induction false} NothingInQuiet(z: seq<Tok>, i: nat, e: nat, rest: seq<Unit>)
    requires i <= |z| && Quiet(z, i, e)
    ensures Reaches(z, i, e) && NotNulls(Run(z, i, e) + rest, 0) == NotNulls(rest, 0)
    decreases |z| - i
  {
    if i == e {
      assert Run(z, i, e) + rest == rest;
    } else {
      NothingInQuiet(z, TokenEnd(z, i), e, rest);
      AssocUnits([UnitAt(z, i)], Run(z, TokenEnd(z, i), e), rest);
      NotNullsCons(UnitAt(z, i), Run(z, TokenEnd(z, i), e) + rest, 0);
    }
  }

  lemma {:induction false} NoNotNoNotNull(z: seq<Tok>, i: nat, k: int)
    requires i <= |z| && FirstNot(z, i, k) == None
    ensures NotNulls(Units(z, i), k) == 0
    decreases |z| - i
  {
    var t := TokenKind(z, i);
    if Ends(t) {
      assert Units(z, i) == [UnitAt(z, i)] + [];
      NotNullsCons(UnitAt(z, i), [], k);
    } else {
      var e := TokenEnd(z, i);
      NotNullsCons(UnitAt(z, i), Units(z, e), k);
      if !t.COMMA? || k != 0 { NoNotNoNotNull(z, e, if t.COMMA? then k - 1 else k); }
    }
  }

  /** From its NOT on, the constraint counts once if NULL follows, and else not at all. */
  lemma {:induction false} CountsAt(z: seq<Tok>, q: nat)
    requires q <= |z| && TokenKind(z, q).NOT?
    ensures var e := ConstraintEnd(z, TokenEnd(z, q));
      NotNulls(Units(z, q), 0)
        == (if TokenKind(z, TokenEnd(z, q)).NULL? then 1 else 0) + NotNulls(Units(z, e), 0)
  {
    var a := TokenEnd(z, q);
    EndIsQuiet(z, a);
    NothingInQuiet(z, a, ConstraintEnd(z, a), Units(z, ConstraintEnd(z, a)));
    RunThenUnits(z, a, ConstraintEnd(z, a));
    NotNullsCons(UnitAt(z, q), Units(z, a), 0);
  }

  // ---- DROP NOT NULL ----

  /** A constraint of a column does not follow a comma. */
  lemma {:induction false} NotAfterComma(z: seq<Tok>, i: nat, first: bool, k: int, s: nat)
    requires i < s && i <= |z| && Reaches(z, i, s) && ColumnNamed(z, i, first, k) && Passed(z, i, s) == k
    requires !NameKind(TokenKind(z, s))
    ensures !z[s - 1].kind.COMMA?
    decreases |z| - i
  {
    var t, e := TokenKind(z, i), TokenEnd(z, i);
    StepOverComma(z, i);
    if e != s { NotAfterComma(z, e, t.COMMA?, if t.COMMA? then k - 1 else k, s); }
  }

  /** What the search for the NOT NULL of a column finds is part of a definition. */
  lemma {:induction false} TakenIsPart(z: seq<Tok>, body: nat, k: int, s: nat, e: nat)
    requires 0 < body <= s <= |z| && KindAt(z, body - 1).LP? && Reaches(z, body, s)
    requires ColumnNamed(z, body, true, k) && Passed(z, body, s) == k
    requires TokenKind(z, s).NOT? || TokenKind(z, s).CONSTRAINT?
    ensures !IsWhole(z, s, e)
  {
    if body < s { NotAfterComma(z, body, true, k, s); }
  }

  /** NULL follows the first NOT of the definition. */
  predicate FirstIsNotNull(z: seq<Tok>, i: nat, k: int)
  {
    match FirstNot(z, i, k)
    case None => false
    case Some(q) => TokenKind(z, TokenEnd(z, q)).NULL?
  }

  lemma {:induction false} TakenCounts(z: seq<Tok>, i: nat, k: int, s: nat, e: nat)
    requires i <= |z| && FirstNot(z, i, k).Some? && Reaches(z, i, s) && Passed(z, i, s) == k && s <= |z|
    requires s <= FirstNot(z, i, k).value && IsNotConstraint(z, s, e, FirstNot(z, i, k).value) && e <= |z|
    ensures NotNulls(Units(z, i), k)
      == (if FirstIsNotNull(z, i, k) then 1 else 0) + NotNulls(Run(z, i, s) + Units(z, e), k)
  {
    var q := FirstNot(z, i, k).value;
    FirstNotReached(z, i, k);
    RunThenUnits(z, i, q);
    NothingBefore(z, i, q, k, Units(z, q));
    CountsAt(z, q);
    NothingBefore(z, i, s, k, Units(z, e));
  }

  lemma {:induction false} DropCounts(z: seq<Tok>, body: nat, k: int)
    requires BodyStart(z, 0) == Some(body) && WellFormed(z, body, true) && ColumnNamed(z, body, true, k)
    requires FirstNot(z, body, k).Some?
    ensures Dropped(z, NotNullOf(k)).Text?
    ensures var r := Dropped(z, NotNullOf(k)).z;
      && body <= |r| && r[..body] == z[..body]
      && NotNulls(Units(z, body), k) == (if FirstIsNotNull(z, body, k) then 1 else 0) + NotNulls(Units(r, body), k)
  {
    var q := FirstNot(z, body, k).value;
    assert Takes(z, Scan(z, body, 0, NotNullOf(k)), body, Some(q)) by { ScanFindsFirstNot(z, body, true, 0, k); }
    var f := Scan(z, body, 0, NotNullOf(k));
    DropLeavesOthers(z, NotNullOf(k));
    assert KindAt(z, body - 1).LP? by { BodyFollowsLP(z, 0); }
    TakenIsPart(z, body, k, f.start, f.end);
    TakenCounts(z, body, k, f.start, f.end);
  }

  lemma {:induction false} NothingTaken(z: seq<Tok>, body: nat, k: int)
    requires BodyStart(z, 0) == Some(body) && WellFormed(z, body, true) && FirstNot(z, body, k) == None
    ensures Dropped(z, NotNullOf(k)) == Text(z)
  {
    ScanFindsFirstNot(z, body, true, 0, k);
  }

  /** DROP NOT NULL takes exactly one NOT NULL out of the column when NULL follows the first NOT
      of the column, and otherwise none. */
  lemma {:induction false} DropNotNullCounts(z: seq<Tok>, body: nat, k: int)
    requires BodyStart(z, 0) == Some(body) && WellFormed(z, body, true) && ColumnNamed(z, body, true, k)
    ensures Dropped(z, NotNullOf(k)).Text?
    ensures var r := Dropped(z, NotNullOf(k)).z;
      && body <= |r| && r[..body] == z[..body]
      && NotNulls(Units(z, body), k) == (if FirstIsNotNull(z, body, k) then 1 else 0) + NotNulls(Units(r, body), k)
  {
    if FirstNot(z, body, k) == None {
      NothingTaken(z, body, k);
      NoNotNoNotNull(z, body, k);
    } else {
      DropCounts(z, body, k);
    }
  }

  /** After DROP NOT NULL the column has no NOT NULL if and only if it had none, or had one and
      that one is at its first NOT. */
  lemma {:induction false} DropNotNullWorksIff(z: seq<Tok>, body: nat, k: int)
    requires BodyStart(z, 0) == Some(body) && WellFormed(z, body, true) && ColumnNamed(z, body, true, k)
    ensures Dropped(z, NotNullOf(k)).Text? && body <= |Dropped(z, NotNullOf(k)).z|
    ensures var had := NotNulls(Units(z, body), k);
      NotNulls(Units(Dropped(z, NotNullOf(k)).z, body), k) == 0
      <==> had == 0 || (had == 1 && FirstIsNotNull(z, body, k))
  {
    DropNotNullCounts(z, body, k);
  }

  /** What is taken out has NOT directly followed by NULL exactly when those are the first NOT of
      the column and the token behind it. */
  lemma {:induction false} TakesNotNullIff(z: seq<Tok>, body: nat, k: int)
    requires BodyStart(z, 0) == Some(body) && WellFormed(z, body, true) && FirstNot(z, body, k).Some?
    ensures var f := Scan(z, body, 0, NotNullOf(k));
      && f.Found? && f.start <= |z| && Reaches(z, f.start, f.end)
      && NotNulls(Run(z, f.start, f.end), 0) == if FirstIsNotNull(z, body, k) then 1 else 0
  {
    var q := FirstNot(z, body, k).value;
    assert Takes(z, Scan(z, body, 0, NotNullOf(k)), body, Some(q)) by { ScanFindsFirstNot(z, body, true, 0, k); }
    var f := Scan(z, body, 0, NotNullOf(k));
    assert WellFormed(z, f.start, true) || WellFormed(z, f.start, false) by {
      FoundIsOneRun(z, body, true, 0, NotNullOf(k));
      WellFormedOn(z, body, true, f.start);
    }
    RunCounts(z, f.start, WellFormed(z, f.start, true), f.end, q);
  }

  lemma {:induction false} RunCounts(z: seq<Tok>, s: nat, first: bool, e: nat, q: nat)
    requires s <= |z| && WellFormed(z, s, first) && q <= |z| && IsNotConstraint(z, s, e, q)
    ensures Reaches(z, s, e)
    ensures NotNulls(Run(z, s, e), 0) == if TokenKind(z, TokenEnd(z, q)).NULL? then 1 else 0
  {
    assert FirstNot(z, s, 0) == Some(q) by { if s != q { NamedNot(z, s, first); } }
    FirstNotReached(z, s, 0);
    var a := TokenEnd(z, q);
    EndIsQuiet(z, a);
    NothingInQuiet(z, a, e, []);
    assert Run(z, a, e) + [] == Run(z, a, e);
    assert Run(z, q, e) == [UnitAt(z, q)] + Run(z, a, e);
    NotNullsCons(UnitAt(z, q), Run(z, a, e), 0);
    RunOn(z, s, q, e);
    NothingBefore(z, s, q, 0, Run(z, q, e));
  }

  // ---- Where it fails ----

  /** `CREATE TABLE t(a` + what follows the column name + `)`. */
  function TableOf(column: seq<Tok>): seq<Tok>
  {
    [Tok(OTHER, "CREATE"), SPACE_TOK, Tok(OTHER, "TABLE"), SPACE_TOK, Tok(OTHER, "t"),
     Tok(LP, "("), Tok(OTHER, "a")] + column + [Tok(RP, ")")]
  }

  const NOT_NULL := [SPACE_TOK, Tok(NOT, "NOT"), SPACE_TOK, Tok(NULL, "NULL")]
  const NOT_DEFERRABLE := [SPACE_TOK, Tok(NOT, "NOT"), SPACE_TOK, Tok(OTHER, "DEFERRABLE")]

  /** In `CREATE TABLE t(a NOT DEFERRABLE NOT NULL)` the first NOT of the column is not that of
      NOT NULL: DROP NOT NULL takes NOT DEFERRABLE out and leaves NOT NULL. */
  lemma TakesNotDeferrable()
    ensures Dropped(TableOf(NOT_DEFERRABLE + NOT_NULL), NotNullOf(0)) == Text(TableOf(NOT_NULL))
  {
    DropsFirstOfTwo(TableOf(NOT_DEFERRABLE + NOT_NULL), Tok(OTHER, "DEFERRABLE"));
  }

  /** In `CREATE TABLE t(a NOT NULL NOT NULL)`, it takes the first of the two out. */
  lemma LeavesTheSecond()
    ensures Dropped(TableOf(NOT_NULL + NOT_NULL), NotNullOf(0)) == Text(TableOf(NOT_NULL))
  {
    DropsFirstOfTwo(TableOf(NOT_NULL + NOT_NULL), Tok(NULL, "NULL"));
  }

  lemma DropsFirstOfTwo(z: seq<Tok>, t: Tok)
    requires t.kind.OTHER? || t.kind.NULL?
    requires z == TableOf([SPACE_TOK, Tok(NOT, "NOT"), SPACE_TOK, t] + NOT_NULL)
    ensures Dropped(z, NotNullOf(0)) == Text(TableOf(NOT_NULL))
  {
    assert BodyStart(z, 0) == Some(6) by {
      assert BodyStart(z, 5) == Some(6);
      assert BodyStart(z, 4) == Some(6);
      assert BodyStart(z, 3) == Some(6);
      assert BodyStart(z, 2) == Some(6);
      assert BodyStart(z, 1) == Some(6);
    }
    assert TokenKind(z, 6).OTHER? && TokenEnd(z, 6) == 7;
    assert TokenKind(z, 7).NOT? && TokenEnd(z, 7) == 9;
    assert TokenKind(z, 9) == t.kind && TokenEnd(z, 9) == 11;
    assert TokenKind(z, 11) == KindAt(z, 12) == NOT;
    assert ConstraintEnd(z, 11) == 11;
    assert Scan(z, 7, 0, NotNullOf(0)) == Found(7, 11);
    assert SkipSpace(z, 11) == 12;
    assert Cut(z, 7, 11) == z[..7] + [SPACE_TOK] + z[12..];
    assert z[..7] + [SPACE_TOK] + z[12..] == TableOf(NOT_NULL);
  }
}
