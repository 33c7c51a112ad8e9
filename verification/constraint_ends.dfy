/** Where a constraint ends, and what taking it out leaves of its definition. */
module ConstraintEnds {
  import opened Options
  import opened SqlTokens
  import opened ConstraintScan
  import opened ConstraintUnits
  import opened ConstraintLaws
  import opened ConstraintNotNull
  import opened ConstraintSet

  // ---- The end of a constraint ----

  /** The words with which the next constraint, or the next part of a column definition, begins. */
  predicate Begins(t: Kind)
  {
    t in {CONSTRAINT, PRIMARY, NOT, UNIQUE, CHECK, DEFAULT, COLLATE, REFERENCES, FOREIGN, AS, GENERATED}
  }

  /** Steps lead from `i` to `e`, past nothing that begins something else, no comma and no end. */
  ghost predicate RunsOn(z: seq<Tok>, i: nat, e: nat)
    decreases |z| - i
  {
    i == e || (!Begins(TokenKind(z, i)) && TokenKind(z, i) !in {COMMA, RP, ILLEGAL} && RunsOn(z, TokenEnd(z, i), e))
  }

  lemma {:induction false} EndIs(z: seq<Tok>, i: nat)
    ensures var e := ConstraintEnd(z, i);
      && RunsOn(z, i, e)
      && (Begins(TokenKind(z, e)) || TokenKind(z, e) in {COMMA, RP, ILLEGAL})
    decreases |z| - i
  {
    if !Stops(TokenKind(z, i)) { EndIs(z, TokenEnd(z, i)); }
  }

  /** What the search finds from `s` to `e`: a constraint with its name, if it has one, and its
      type, or a name alone, up to where `h` is; and then everything up to the next beginning,
      comma or end. */
  ghost predicate IsConstraintText(z: seq<Tok>, s: nat, h: nat, e: nat)
    requires s <= |z|
  {
    && s < h <= e <= |z| && RunsOn(z, h, e)
    && (Begins(TokenKind(z, e)) || TokenKind(z, e) in {COMMA, RP})
    && if TokenKind(z, s) == CONSTRAINT then
         var b := NameEnd(z, s);
         if TokenKind(z, b) in {CONSTRAINT, DEFAULT, COLLATE, COMMA, RP, GENERATED, AS} then h == e == b
         else TokenKind(z, b) in {NOT, CHECK} && h == TokenEnd(z, b)
       else TokenKind(z, s) == NOT && h == TokenEnd(z, s)
  }

  lemma {:induction false} NotText(z: seq<Tok>, i: nat, first: bool)
    requires i <= |z| && WellFormed(z, i, first) && TokenKind(z, i).NOT?
    ensures IsConstraintText(z, i, TokenEnd(z, i), ConstraintEnd(z, TokenEnd(z, i)))
  {
    NotIsWithin(z, i, first);
    EndIs(z, TokenEnd(z, i));
  }

  lemma {:induction false} NamedText(z: seq<Tok>, i: nat, first: bool)
    requires i <= |z| && WellFormed(z, i, first) && TokenKind(z, i).CONSTRAINT?
    requires NamedType(z, i).NOT? || NamedType(z, i).CHECK?
    ensures var b := NameEnd(z, i);
      IsConstraintText(z, i, if EndsAtName(TokenKind(z, b)) then b else TokenEnd(z, b), NamedEnd(z, i))
  {
    NamedIsWithin(z, i, first);
    NamedShape(z, i, first);
    var b := NameEnd(z, i);
    if !EndsAtName(TokenKind(z, b)) { EndIs(z, TokenEnd(z, b)); }
  }

  /** What either search finds is such a text. */
  lemma {:induction false} FoundIsText(z: seq<Tok>, i: nat, first: bool, ii: nat, target: Target) returns (h: nat)
    requires i <= |z| && WellFormed(z, i, first) && Scan(z, i, ii, target).Found?
    ensures var r := Scan(z, i, ii, target);
      r.start <= |z| && IsConstraintText(z, r.start, h, r.end)
    decreases |z| - i
  {
    var t := TokenKind(z, i);
    var r := Scan(z, i, ii, target);
    if t.CONSTRAINT? && (target.Named? || target.iCol == ii) {
      NamedIsWithin(z, i, first);
      if r == Scan(z, NamedEnd(z, i), ii, target) {
        h := FoundIsText(z, NamedEnd(z, i), false, ii, target);
      } else {
        NamedText(z, i, first);
        var b := NameEnd(z, i);
        h := if EndsAtName(TokenKind(z, b)) then b else TokenEnd(z, b);
      }
    } else if t.NOT? && target == NotNullOf(ii) {
      NotText(z, i, first);
      h := TokenEnd(z, i);
    } else {
      h := FoundIsText(z, TokenEnd(z, i), t.COMMA?, if t.COMMA? then ii + 1 else ii, target);
    }
  }

  /** DROP CONSTRAINT takes the first constraint of the name out if NOT, CHECK or nothing of its
      own follows the name, and refuses it otherwise; DROP NOT NULL without a NOT changes
      nothing. */
  lemma {:induction false} DropOutcome(z: seq<Tok>, body: nat, target: Target)
    requires BodyStart(z, 0) == Some(body) && WellFormed(z, body, true)
    ensures target.Named? ==>
      match FirstNamed(z, body, target.spells)
      case None => Dropped(z, target) == NoSuch
      case Some(p) =>
        if TokenKind(z, NameEnd(z, p)) in {NOT, CHECK, CONSTRAINT, DEFAULT, COLLATE, COMMA, RP, GENERATED, AS}
        then Dropped(z, target).Text? else Dropped(z, target) == MayNotDrop
    ensures target.NotNullOf? ==>
      Dropped(z, target).Text? && (FirstNot(z, body, target.iCol) == None ==> Dropped(z, target) == Text(z))
  {
    ScanBounds(z, body, 0, target);
    if target.Named? {
      ScanFindsFirstNamed(z, body, true, 0, target.spells);
    } else {
      ScanFindsFirstNot(z, body, true, 0, target.iCol);
    }
  }

  // ---- What is left of the definition ----

  /** How many of the steps are of kind `t`. */
  function Number(us: seq<Unit>, t: Kind): nat
  {
    if us == [] then 0 else (if us[0].kind == t then 1 else 0) + Number(us[1..], t)
  }

  lemma {:induction false} NumberAdds(a: seq<Unit>, b: seq<Unit>, t: Kind)
    ensures Number(a + b, t) == Number(a, t) + Number(b, t)
  {
    if a == [] {
      assert a + b == b;
    } else {
      assert (a + b)[1..] == a[1..] + b;
      NumberAdds(a[1..], b, t);
    }
  }

  lemma {:induction false} NothingBegins(z: seq<Tok>, i: nat, e: nat, t: Kind)
    requires i <= |z| && RunsOn(z, i, e) && Begins(t)
    ensures Reaches(z, i, e) && Number(Run(z, i, e), t) == 0
    decreases |z| - i
  {
    if i != e {
      NothingBegins(z, TokenEnd(z, i), e, t);
      NumberAdds([UnitAt(z, i)], Run(z, TokenEnd(z, i), e), t);
    }
  }

  /** The definition in which a place lies, up to that place and from it on. */
  lemma {:induction false} DefinitionSplits(z: seq<Tok>, i: nat, p: nat, k: nat, rest: seq<Unit>)
    requires i <= |z| && Reaches(z, i, p) && Passed(z, i, p) == k
    ensures Definition(Run(z, i, p) + rest, k) == Definition(Run(z, i, p), k) + Definition(rest, 0)
    decreases |z| - i
  {
    if i == p {
      assert Run(z, i, p) + rest == rest;
    } else {
      var e, u := TokenEnd(z, i), UnitAt(z, i);
      DefinitionSplits(z, e, p, if TokenKind(z, i).COMMA? then k - 1 else k, rest);
      AssocUnits([u], Run(z, e, p), rest);
      DefinitionCons(u, Run(z, e, p) + rest, k);
      DefinitionCons(u, Run(z, e, p), k);
      if !TokenKind(z, i).COMMA? && k == 0 {
        AssocUnits([u], Definition(Run(z, e, p), 0), Definition(rest, 0));
      }
    }
  }

  lemma {:induction false} WithinIsAll(z: seq<Tok>, i: nat, p: nat, rest: seq<Unit>)
    requires i <= |z| && Within(z, i, p)
    ensures Definition(Run(z, i, p) + rest, 0) == Run(z, i, p) + Definition(rest, 0)
    decreases |z| - i
  {
    if i == p {
      assert Run(z, i, p) + rest == rest;
    } else {
      var e, u := TokenEnd(z, i), UnitAt(z, i);
      WithinIsAll(z, e, p, rest);
      AssocUnits([u], Run(z, e, p), rest);
      DefinitionCons(u, Run(z, e, p) + rest, 0);
      AssocUnits([u], Run(z, e, p), Definition(rest, 0));
    }
  }

  /** Of each beginning, the definition has as many as it has without the run from `s` to `e`, and
      those that the run has. */
  lemma {:induction false} NumbersSplit(z: seq<Tok>, i: nat, s: nat, e: nat, k: nat, t: Kind)
    requires i <= |z| && Reaches(z, i, s) && Passed(z, i, s) == k && s <= |z| && Within(z, s, e)
    ensures Number(Definition(Units(z, i), k), t)
      == Number(Definition(Run(z, i, s) + Units(z, e), k), t) + Number(Run(z, s, e), t)
  {
    var front, mid, rest := Definition(Run(z, i, s), k), Run(z, s, e), Definition(Units(z, e), 0);
    RunThenUnits(z, i, s);
    RunThenUnits(z, s, e);
    DefinitionSplits(z, i, s, k, Units(z, s));
    DefinitionSplits(z, i, s, k, Units(z, e));
    WithinIsAll(z, s, e, Units(z, e));
    NumberAdds(front, mid + rest, t);
    NumberAdds(mid, rest, t);
    NumberAdds(front, rest, t);
  }

  /** Of a constraint, what stands behind its type begins nothing. */
  lemma {:induction false} OnlyTheHead(z: seq<Tok>, s: nat, h: nat, e: nat, t: Kind)
    requires s <= |z| && IsConstraintText(z, s, h, e) && Reaches(z, s, h) && Begins(t)
    ensures Reaches(z, s, e) && Number(Run(z, s, e), t) == Number(Run(z, s, h), t)
  {
    NothingBegins(z, h, e, t);
    RunOn(z, s, h, e);
    NumberAdds(Run(z, s, h), Run(z, h, e), t);
  }

  lemma {:induction false} HeadIsReached(z: seq<Tok>, s: nat, h: nat, e: nat)
    requires s <= |z| && IsConstraintText(z, s, h, e) && Within(z, s, e)
    requires TokenKind(z, s).CONSTRAINT? ==> NameKind(TokenKind(z, TokenEnd(z, s)))
    ensures Reaches(z, s, h)
  {
    if TokenKind(z, s) == CONSTRAINT {
      SkipMore(z, TokenEnd(z, s), NameStart(z, s));
      assert Reaches(z, NameEnd(z, s), h);
      assert Reaches(z, TokenEnd(z, s), h);
    }
  }

  /** The NOT of what DROP NOT NULL takes out is the first of the column. */
  lemma HeadEndsInNot(z: seq<Tok>, body: nat, k: nat, s: nat, e: nat) returns (h: nat)
    requires BodyStart(z, 0) == Some(body) && WellFormed(z, body, true) && FirstNot(z, body, k).Some?
    requires Scan(z, body, 0, NotNullOf(k)) == Found(s, e)
    ensures s <= |z| && IsConstraintText(z, s, h, e) && h == TokenEnd(z, FirstNot(z, body, k).value)
  {
    ScanFindsFirstNot(z, body, true, 0, k);
    h := FoundIsText(z, body, true, 0, NotNullOf(k));
  }

  lemma {:induction false} NameFollows(z: seq<Tok>, body: nat, s: nat)
    requires body <= |z| && WellFormed(z, body, true) && Reaches(z, body, s) && s <= |z|
    ensures TokenKind(z, s).CONSTRAINT? ==> NameKind(TokenKind(z, TokenEnd(z, s)))
  {
    WellFormedOn(z, body, true, s);
  }

  /** DROP NOT NULL leaves the column all other constraints and parts: of everything that begins
      one, it has as many as before, less its NOT and, if the constraint had a name, what stands
      in front of the NOT. */
  lemma DropNotNullKeepsParts(z: seq<Tok>, body: nat, k: nat, t: Kind) returns (h: nat)
    requires BodyStart(z, 0) == Some(body) && WellFormed(z, body, true) && ColumnNamed(z, body, true, k)
    requires FirstNot(z, body, k).Some? && Begins(t)
    ensures Dropped(z, NotNullOf(k)).Text? && Scan(z, body, 0, NotNullOf(k)).Found?
    ensures var s, d := Scan(z, body, 0, NotNullOf(k)).start, Dropped(z, NotNullOf(k)).z;
      && s <= |z| && body <= |d| && Reaches(z, s, h)
      && h == TokenEnd(z, FirstNot(z, body, k).value)
      && Number(Definition(Units(z, body), k), t) == Number(Definition(Units(d, body), k), t) + Number(Run(z, s, h), t)
  {
    var s, e := DropParts(z, body, k);
    h := HeadEndsInNot(z, body, k, s, e);
    NameFollows(z, body, s);
    HeadIsReached(z, s, h, e);
    OnlyTheHead(z, s, h, e, t);
    NumbersSplit(z, body, s, e, k, t);
  }
}
