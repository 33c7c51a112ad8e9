/** The name in ADD CONSTRAINT and DROP CONSTRAINT.  `quotedCompare` expects a name without
    quotes, but DROP CONSTRAINT gives it the token as it stands in the statement. */
module ConstraintNames {
  import opened Options
  import opened SqlTokens
  import opened ConstraintScan
  import opened ConstraintUnits
  import opened ConstraintLaws
  import opened ConstraintRoundtrip
  import SqlQuoting

  /** `exact` holds of the text `name` only. */
  ghost predicate IsExact(exact: string -> bool, name: string)
  {
    forall text :: exact(text) <==> text == name
  }

  /** `spells` is what `quotedCompare` finds out with `name` to compare against. */
  ghost predicate LooksFor(spells: string -> bool, name: string)
  {
    forall text :: spells(text) <==> SpelledAs(name)(text)
  }

  predicate IsQuoted(name: string) { name != "" && SqlQuoting.IsQuote(name[0]) }

  /** A token spells itself exactly when it is not quoted. */
  lemma SpellsItselfIff(name: string)
    ensures SpelledAs(name)(name) <==> !IsQuoted(name)
  {
    if IsQuoted(name) {
      var k := SqlQuoting.CloseAt(name, 1, SqlQuoting.Closer(name[0]));
      assert |SqlQuoting.Dequoted(name)| <= k - 1 < |name|;
    }
  }

  lemma NamesExactly(c: seq<Tok>, i: nat, name: string, exact: string -> bool, spells: string -> bool)
    requires i <= |c| && IsExact(exact, name) && Names(c, i, exact)
    ensures Names(c, i, spells) == spells(name)
  {
  }

  /** The constraint that starts `c`, copied behind a comma and a space. */
  lemma NamesBehindComma(c: seq<Tok>, r: seq<Tok>, p: nat, q: nat, exact: string -> bool, spells: string -> bool)
    requires Copied(c, 0, |c|, r, q + 2) && IsClosedCheck(c, exact)
    requires p <= q && q + 2 < |r| && SkipSpace(r, p) == q
    requires r[q].kind.COMMA? && r[q + 1].kind.SPACE? && r[q + 2].kind.CONSTRAINT?
    ensures Names(r, q + 1, spells) == Names(c, 0, spells)
  {
    SeenAfterComma(r, p, q);
    NamedEndCopied(c, 0, r, q + 2, 0, true, spells);
    SameAfterSpace(r, q + 1, q + 2, spells);
  }

  /** It is the only constraint in the last definition. */
  lemma NoOtherName(c: seq<Tok>, r: seq<Tok>, p: nat, q: nat, exact: string -> bool, spells: string -> bool)
    requires Copied(c, 0, |c|, r, q + 2) && IsClosedCheck(c, exact) && !Names(c, 0, spells)
    requires p <= q && q + 2 < |r| && SkipSpace(r, p) == q
    requires r[q].kind.COMMA? && r[q + 1].kind.SPACE? && r[q + 2].kind.CONSTRAINT?
    ensures WellFormed(r, p, false) && FirstNamed(r, p, spells) == None
  {
    AddedIsSeen(c, r, p, q, exact);
    assert TokenKind(r, p).COMMA? && TokenEnd(r, p) == q + 1 && TokenKind(r, q + 1).CONSTRAINT? by {
      SeenAfterComma(r, p, q);
    }
    NamesBehindComma(c, r, p, q, exact, spells);
    SkipsNoName(r, q + 1, true, spells);
    SpaceAfterAdded(c, r, q + 2);
    EndsAt(r, NamedEnd(r, q + 1), spells);
  }

  lemma {:induction false} EndsAt(r: seq<Tok>, e: nat, spells: string -> bool)
    requires SkipSpace(r, e) < |r| && r[SkipSpace(r, e)].kind.RP? && e <= |r|
    ensures FirstNamed(r, e, spells) == None
  {
    TokenAfterSpace(r, e);
  }

  lemma NothingToDrop(z: seq<Tok>, body: nat, p: nat, q: nat, c: seq<Tok>, r: seq<Tok>,
                      exact: string -> bool, spells: string -> bool)
    requires BodyStart(z, 0) == Some(body) && WellFormed(z, body, true)
    requires body <= p <= q < |z| && q == SkipSpace(z, p) && Reaches(z, body, p) && TokenKind(z, p).RP?
    requires FirstNamed(z, body, spells) == None && IsClosedCheck(c, exact) && !Names(c, 0, spells)
    requires q + 2 < |r| && r[q].kind.COMMA? && r[q + 1].kind.SPACE? && r[q + 2].kind.CONSTRAINT?
    requires Copied(z, 0, q, r, 0) && Copied(c, 0, |c|, r, q + 2)
    ensures Dropped(r, Named(spells)) == NoSuch
  {
    SkipsToComma(z, p, q, r);
    assert WellFormed(r, p, false) && FirstNamed(r, p, spells) == None by { NoOtherName(c, r, p, q, exact, spells); }
    CopiedPrefix(z, p, q, r);
    NotInFront(z, body, p, r, spells);
    BodyStartCopied(z, q, r, 0);
  }

  lemma {:induction false} NotInFront(z: seq<Tok>, body: nat, p: nat, r: seq<Tok>, spells: string -> bool)
    requires body <= p <= |z| && p <= |r| && WellFormed(z, body, true) && Reaches(z, body, p) && TokenKind(z, p).RP?
    requires FirstNamed(z, body, spells) == None && Copied(z, 0, p, r, 0)
    requires WellFormed(r, p, false) && FirstNamed(r, p, spells) == None
    ensures Scan(r, body, 0, Named(spells)) == Absent
  {
    StartStays(z, body, true, p, r);
    NoNameStays(z, body, true, p, r, spells);
    ScanFindsFirstNamed(r, body, true, 0, spells);
  }

  /** The constraint is added under a quoted name. */
  lemma {:induction false} AddThenDropQuoted(z: seq<Tok>, cons: seq<Tok>, exact: string -> bool, spells: string -> bool)
    requires BodyStart(z, 0).Some? && WellFormed(z, BodyStart(z, 0).value, true)
    requires forall k :: 0 <= k < |z| && z[k].kind.RP? ==> z[k] == CLOSE
    requires !Finds(z, FindStart(z, 0), spells)
    requires IsNamedCheck(cons, exact) && !Names(cons + [CLOSE], 0, spells)
    ensures Added(z, cons, -1).Some? && Dropped(Added(z, cons, -1).value, Named(spells)) == NoSuch
  {
    var body := BodyStart(z, 0).value;
    assert FirstNamed(z, body, spells) == None by {
      FindStartsAtBody(z, 0);
      NotFoundIsNotNamed(z, body, spells);
    }
    var p := AddsAtTheEnd(z, body, true);
    var q := SkipSpace(z, p);
    ClosesAt(z, p);
    AddsAt(z, cons, body, p);
    var r, c := AddedJoins(z, cons, q, exact);
    NothingToDrop(z, body, p, q, c, r, exact, spells);
  }

  /** Adding a CHECK constraint under a name that is not in use, and dropping it by the same
      token, gives back the statement if the token is not quoted.  If it is, the constraint is
      not found. */
  lemma {:induction false} AddThenDropSameToken(z: seq<Tok>, cons: seq<Tok>, name: string, exact: string -> bool,
                                                spells: string -> bool)
    requires BodyStart(z, 0).Some? && WellFormed(z, BodyStart(z, 0).value, true)
    requires forall k :: 0 <= k < |z| && z[k].kind.RP? ==> z[k] == CLOSE
    requires IsExact(exact, name) && IsNamedCheck(cons, exact)
    requires LooksFor(spells, name) && !Finds(z, FindStart(z, 0), spells)
    ensures Added(z, cons, -1).Some?
    ensures Dropped(Added(z, cons, -1).value, Named(spells)) == if IsQuoted(name) then NoSuch else Text(z)
  {
    assert spells(name) == !IsQuoted(name) by { SpellsItselfIff(name); }
    NamesExactly(cons + [CLOSE], 0, name, exact, spells);
    if IsQuoted(name) {
      AddThenDropQuoted(z, cons, exact, spells);
    } else {
      AddThenDrop(z, cons, spells);
    }
  }
}
