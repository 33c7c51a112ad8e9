/** What the search of `dropConstraintFunc` finds and what cutting it out leaves, for every
    statement that the parser accepts. */
module ConstraintLaws {
  import opened Options
  import opened SqlTokens
  import opened ConstraintScan
  import opened ConstraintUnits

  /** Steps lead from `i` to `j` inside one definition, past no other CONSTRAINT or NOT. */
  ghost predicate Quiet(z: seq<Tok>, i: nat, j: nat)
    ensures Quiet(z, i, j) ==> i <= j && (i <= |z| ==> j <= |z|)
    decreases |z| - i
  {
    var t := TokenKind(z, i);
    i == j || (!Ends(t) && !t.COMMA? && !t.CONSTRAINT? && !t.NOT? && Quiet(z, TokenEnd(z, i), j))
  }

  lemma {:induction false} EndIsQuiet(z: seq<Tok>, i: nat)
    ensures Quiet(z, i, ConstraintEnd(z, i))
    decreases |z| - i
  {
    if !Stops(TokenKind(z, i)) { EndIsQuiet(z, TokenEnd(z, i)); }
  }

  lemma {:induction false} QuietOn(z: seq<Tok>, i: nat, j: nat, first: bool)
    requires Quiet(z, i, j) && WellFormed(z, i, first)
    ensures Reaches(z, i, j)
    ensures WellFormed(z, j, false) || (i == j && WellFormed(z, j, first))
    decreases |z| - i
  {
    if i != j { QuietOn(z, TokenEnd(z, i), j, false); }
  }

  /** Where a named constraint ends: its name follows, and then, unless the name is all there
      is, either NOT or something else and a quiet rest. */
  lemma {:induction false} NamedShape(z: seq<Tok>, i: nat, first: bool)
    requires i <= |z| && WellFormed(z, i, first) && TokenKind(z, i).CONSTRAINT?
    ensures var a := TokenEnd(z, i);
      var b := TokenEnd(z, a);
      var t := TokenKind(z, b);
      && NameEnd(z, i) == b && i < a < b
      && NameKind(TokenKind(z, a)) && WellFormed(z, a, false) && WellFormed(z, b, false)
      && NamedEnd(z, i) == (if EndsAtName(t) then b else ConstraintEnd(z, TokenEnd(z, b)))
      && (!EndsAtName(t) ==> WellFormed(z, TokenEnd(z, b), false) && !Ends(t) && !t.COMMA? && !t.CONSTRAINT?)
  {
    SkipMore(z, TokenEnd(z, i), NameStart(z, i));
  }

  // ---- The search for a name finds the first constraint of that name ----

  /** The first CONSTRAINT of the body, from `i` on, that is followed by the name. */
  function FirstNamed(z: seq<Tok>, i: nat, spells: string -> bool): Option<nat>
    requires i <= |z|
    decreases |z| - i
  {
    if Ends(TokenKind(z, i)) then None
    else if TokenKind(z, i).CONSTRAINT? && Names(z, i, spells) then Some(i)
    else FirstNamed(z, TokenEnd(z, i), spells)
  }

  lemma {:induction false} QuietHasNoName(z: seq<Tok>, i: nat, j: nat, spells: string -> bool)
    requires i <= |z| && Quiet(z, i, j)
    ensures FirstNamed(z, i, spells) == FirstNamed(z, j, spells)
    decreases |z| - i
  {
    if i != j { QuietHasNoName(z, TokenEnd(z, i), j, spells); }
  }

  /** Leaving out what belongs to a constraint of another name misses no CONSTRAINT. */
  lemma {:induction false} SkipsNoName(z: seq<Tok>, i: nat, first: bool, spells: string -> bool)
    requires i <= |z| && WellFormed(z, i, first) && TokenKind(z, i).CONSTRAINT? && !Names(z, i, spells)
    ensures FirstNamed(z, i, spells) == FirstNamed(z, NamedEnd(z, i), spells)
    ensures WellFormed(z, NamedEnd(z, i), false)
  {
    NamedShape(z, i, first);
    var b := NameEnd(z, i);
    assert FirstNamed(z, i, spells) == FirstNamed(z, TokenEnd(z, i), spells) == FirstNamed(z, b, spells);
    if !EndsAtName(TokenKind(z, b)) {
      assert FirstNamed(z, b, spells) == FirstNamed(z, TokenEnd(z, b), spells);
      EndIsQuiet(z, TokenEnd(z, b));
      QuietHasNoName(z, TokenEnd(z, b), NamedEnd(z, i), spells);
      QuietOn(z, TokenEnd(z, b), NamedEnd(z, i), false);
    }
  }

  /** DROP CONSTRAINT finds the first constraint of that name anywhere in the body, and may drop
      it exactly when it is a NOT NULL or a CHECK constraint, or only a name. */
  lemma {:induction false} ScanFindsFirstNamed(z: seq<Tok>, i: nat, first: bool, ii: nat, spells: string -> bool)
    requires i <= |z| && WellFormed(z, i, first)
    ensures Scan(z, i, ii, Named(spells)) == match FirstNamed(z, i, spells)
      case None => Absent
      case Some(p) => if NamedType(z, p).NOT? || NamedType(z, p).CHECK? then Found(p, NamedEnd(z, p)) else MayNot
    decreases |z| - i
  {
    var t := TokenKind(z, i);
    if t.CONSTRAINT? {
      if !Names(z, i, spells) {
        SkipsNoName(z, i, first, spells);
        ScanFindsFirstNamed(z, NamedEnd(z, i), false, ii, spells);
      }
    } else if !t.RP? {
      ScanFindsFirstNamed(z, TokenEnd(z, i), t.COMMA?, if t.COMMA? then ii + 1 else ii, spells);
    }
  }

  // ---- The search of DROP NOT NULL finds the first NOT of the column ----

  /** The first NOT, outside parentheses, of definition number `k` counted from `i`. */
  function FirstNot(z: seq<Tok>, i: nat, k: int): Option<nat>
    decreases |z| - i
  {
    var t := TokenKind(z, i);
    if Ends(t) || (t.COMMA? && k == 0) then None
    else if t.NOT? && k == 0 then Some(i)
    else FirstNot(z, TokenEnd(z, i), if t.COMMA? then k - 1 else k)
  }

  lemma {:induction false} QuietHasNoNot(z: seq<Tok>, i: nat, j: nat)
    requires Quiet(z, i, j)
    ensures FirstNot(z, i, 0) == FirstNot(z, j, 0)
    decreases |z| - i
  {
    if i != j { QuietHasNoNot(z, TokenEnd(z, i), j); }
  }

  /** The constraint from `s` to `e` is the one whose NOT is at `q`, with its name if it has one. */
  ghost predicate IsNotConstraint(z: seq<Tok>, s: nat, e: nat, q: nat)
    requires s <= |z|
  {
    && (s == q || (TokenKind(z, s).CONSTRAINT? && NameEnd(z, s) == q))
    && TokenKind(z, q).NOT? && e == ConstraintEnd(z, TokenEnd(z, q))
  }

  lemma {:induction false} NamedNot(z: seq<Tok>, i: nat, first: bool)
    requires i <= |z| && WellFormed(z, i, first) && TokenKind(z, i).CONSTRAINT?
    ensures WellFormed(z, NamedEnd(z, i), false)
    ensures if NamedType(z, i).NOT?
      then FirstNot(z, i, 0) == Some(NameEnd(z, i)) && IsNotConstraint(z, i, NamedEnd(z, i), NameEnd(z, i))
      else FirstNot(z, i, 0) == FirstNot(z, NamedEnd(z, i), 0)
  {
    NamedShape(z, i, first);
    var b := NameEnd(z, i);
    assert FirstNot(z, i, 0) == FirstNot(z, TokenEnd(z, i), 0) == FirstNot(z, b, 0);
    if !EndsAtName(TokenKind(z, b)) {
      EndIsQuiet(z, TokenEnd(z, b));
      QuietHasNoNot(z, TokenEnd(z, b), NamedEnd(z, i));
      QuietOn(z, TokenEnd(z, b), NamedEnd(z, i), false);
    }
  }

  /** The search result for the constraint whose NOT is at `q`. */
  ghost predicate Takes(z: seq<Tok>, r: Search, i: nat, q: Option<nat>)
  {
    match q
    case None => r == Absent
    case Some(q) => r.Found? && i <= r.start <= |z| && IsNotConstraint(z, r.start, r.end, q)
  }

  /** Outside the column, and past anything but a constraint in it, the search steps on. */
  lemma StepsOn(z: seq<Tok>, i: nat, ii: nat, iCol: int)
    requires i <= |z| && !Ends(TokenKind(z, i))
    requires iCol == ii ==> !TokenKind(z, i).CONSTRAINT? && !TokenKind(z, i).NOT? && !TokenKind(z, i).COMMA?
    ensures var jj := if TokenKind(z, i).COMMA? then ii + 1 else ii;
      && Scan(z, i, ii, NotNullOf(iCol)) == Scan(z, TokenEnd(z, i), jj, NotNullOf(iCol))
      && FirstNot(z, i, iCol - ii) == FirstNot(z, TokenEnd(z, i), iCol - jj)
  {
  }

  lemma {:induction false} PassesOther(z: seq<Tok>, i: nat, first: bool, ii: nat)
    requires i <= |z| && WellFormed(z, i, first) && TokenKind(z, i).CONSTRAINT? && !NamedType(z, i).NOT?
    ensures WellFormed(z, NamedEnd(z, i), false)
    ensures Scan(z, i, ii, NotNullOf(ii)) == Scan(z, NamedEnd(z, i), ii, NotNullOf(ii))
    ensures FirstNot(z, i, 0) == FirstNot(z, NamedEnd(z, i), 0)
  {
    NamedNot(z, i, first);
  }

  /** Where the search for a NOT in column `iCol` ends. */
  ghost predicate IsLastStep(z: seq<Tok>, j: nat, jj: nat, iCol: int)
    requires j <= |z|
  {
    var t := TokenKind(z, j);
    t.RP? || (iCol == jj && (t.NOT? || t.COMMA? || (t.CONSTRAINT? && NamedType(z, j).NOT?)))
  }

  lemma {:induction false} ScanToLastStep(z: seq<Tok>, i: nat, first: bool, ii: nat, iCol: int)
    returns (j: nat, firstJ: bool, jj: nat)
    requires i <= |z| && WellFormed(z, i, first)
    ensures i <= j <= |z| && WellFormed(z, j, firstJ) && IsLastStep(z, j, jj, iCol)
    ensures Scan(z, i, ii, NotNullOf(iCol)) == Scan(z, j, jj, NotNullOf(iCol))
    ensures FirstNot(z, i, iCol - ii) == FirstNot(z, j, iCol - jj)
    decreases |z| - i
  {
    var t := TokenKind(z, i);
    if IsLastStep(z, i, ii, iCol) {
      j, firstJ, jj := i, first, ii;
    } else if t.CONSTRAINT? && iCol == ii {
      PassesOther(z, i, first, ii);
      j, firstJ, jj := ScanToLastStep(z, NamedEnd(z, i), false, ii, iCol);
    } else {
      StepsOn(z, i, ii, iCol);
      j, firstJ, jj := ScanToLastStep(z, TokenEnd(z, i), t.COMMA?, if t.COMMA? then ii + 1 else ii, iCol);
    }
  }

  lemma {:induction false} AtLastStep(z: seq<Tok>, j: nat, first: bool, jj: nat, iCol: int)
    requires j <= |z| && WellFormed(z, j, first) && IsLastStep(z, j, jj, iCol)
    ensures Takes(z, Scan(z, j, jj, NotNullOf(iCol)), j, FirstNot(z, j, iCol - jj))
  {
    var t := TokenKind(z, j);
    if t.CONSTRAINT? {
      NamedNot(z, j, first);
    } else if t.COMMA? {
      OtherColumns(z, TokenEnd(z, j), true, jj + 1, iCol);
    }
  }

  /** DROP NOT NULL on a column takes the constraint with the first NOT of that column. */
  lemma {:induction false} ScanFindsFirstNot(z: seq<Tok>, i: nat, first: bool, ii: nat, iCol: int)
    requires i <= |z| && WellFormed(z, i, first)
    ensures Takes(z, Scan(z, i, ii, NotNullOf(iCol)), i, FirstNot(z, i, iCol - ii))
  {
    var j, firstJ, jj := ScanToLastStep(z, i, first, ii, iCol);
    AtLastStep(z, j, firstJ, jj, iCol);
  }

  /** Past its column, the search finds nothing. */
  lemma {:induction false} OtherColumns(z: seq<Tok>, i: nat, first: bool, ii: nat, iCol: int)
    requires i <= |z| && WellFormed(z, i, first) && iCol < ii
    ensures Scan(z, i, ii, NotNullOf(iCol)) == Absent
    decreases |z| - i
  {
    var t := TokenKind(z, i);
    if !t.RP? { OtherColumns(z, TokenEnd(z, i), t.COMMA?, if t.COMMA? then ii + 1 else ii, iCol); }
  }

  // ---- What is found is one run of one definition ----

  /** Steps lead from `i` to `j` inside one definition. */
  ghost predicate Within(z: seq<Tok>, i: nat, j: nat)
    ensures Within(z, i, j) ==> Reaches(z, i, j)
    decreases |z| - i
  {
    var t := TokenKind(z, i);
    i == j || (!Ends(t) && !t.COMMA? && Within(z, TokenEnd(z, i), j))
  }

  lemma {:induction false} QuietIsWithin(z: seq<Tok>, i: nat, j: nat)
    requires Quiet(z, i, j)
    ensures Within(z, i, j)
    decreases |z| - i
  {
    if i != j { QuietIsWithin(z, TokenEnd(z, i), j); }
  }

  lemma {:induction false} NamedIsWithin(z: seq<Tok>, i: nat, first: bool)
    requires i <= |z| && WellFormed(z, i, first) && TokenKind(z, i).CONSTRAINT?
    ensures Within(z, i, NamedEnd(z, i)) && WellFormed(z, NamedEnd(z, i), false)
  {
    NamedShape(z, i, first);
    var b := NameEnd(z, i);
    if !EndsAtName(TokenKind(z, b)) {
      EndIsQuiet(z, TokenEnd(z, b));
      QuietIsWithin(z, TokenEnd(z, b), NamedEnd(z, i));
      QuietOn(z, TokenEnd(z, b), NamedEnd(z, i), false);
      assert Within(z, b, NamedEnd(z, i));
    }
    assert Within(z, TokenEnd(z, i), NamedEnd(z, i));
  }

  lemma {:induction false} NotIsWithin(z: seq<Tok>, i: nat, first: bool)
    requires i <= |z| && WellFormed(z, i, first) && TokenKind(z, i).NOT?
    ensures var e := ConstraintEnd(z, TokenEnd(z, i));
      Within(z, i, e) && WellFormed(z, e, false)
  {
    EndIsQuiet(z, TokenEnd(z, i));
    QuietIsWithin(z, TokenEnd(z, i), ConstraintEnd(z, TokenEnd(z, i)));
    QuietOn(z, TokenEnd(z, i), ConstraintEnd(z, TokenEnd(z, i)), false);
  }

  /** The number of the definition in which `j` lies, counted from the one in which `i` lies. */
  ghost function Passed(z: seq<Tok>, i: nat, j: nat): nat
    requires Reaches(z, i, j)
    decreases |z| - i
  {
    if i == j then 0 else (if TokenKind(z, i).COMMA? then 1 else 0) + Passed(z, TokenEnd(z, i), j)
  }

  lemma {:induction false} WithinThen(z: seq<Tok>, i: nat, j: nat, k: nat)
    requires i <= |z| && Within(z, i, j) && Reaches(z, j, k)
    ensures Reaches(z, i, k) && Passed(z, i, k) == Passed(z, j, k)
    decreases |z| - i
  {
    if i != j { WithinThen(z, TokenEnd(z, i), j, k); }
  }

  /** What either search finds starts in the body and lies inside one definition; for DROP NOT
      NULL, inside the definition of that column. */
  lemma {:induction false} FoundIsOneRun(z: seq<Tok>, i: nat, first: bool, ii: nat, target: Target)
    requires i <= |z| && WellFormed(z, i, first) && Scan(z, i, ii, target).Found?
    ensures var r := Scan(z, i, ii, target);
      && r.start < r.end <= |z| && Reaches(z, i, r.start) && Within(z, r.start, r.end)
      && WellFormed(z, r.end, false)
      && (target.NotNullOf? ==> ii + Passed(z, i, r.start) == target.iCol)
    decreases |z| - i
  {
    var t := TokenKind(z, i);
    var r := Scan(z, i, ii, target);
    if t.CONSTRAINT? && (target.Named? || target.iCol == ii) {
      NamedIsWithin(z, i, first);
      if r == Scan(z, NamedEnd(z, i), ii, target) {
        FoundIsOneRun(z, NamedEnd(z, i), false, ii, target);
        WithinThen(z, i, NamedEnd(z, i), r.start);
      }
    } else if t.NOT? && target == NotNullOf(ii) {
      NotIsWithin(z, i, first);
    } else {
      FoundIsOneRun(z, TokenEnd(z, i), t.COMMA?, if t.COMMA? then ii + 1 else ii, target);
    }
  }
}
