/** `dropColumnFunc` of alter.c: the definition of one column is cut out of the text of a CREATE
    TABLE statement. */
module DropColumnText {
  import opened Options
  import opened Definitions
  import opened SqlTokens
  import opened ConstraintScan
  import opened ConstraintUnits
  import opened ConstraintLaws
  import opened ConstraintEdits
  import opened ConstraintRoundtrip

  function UnitMarks(): Marks<Unit>
  {
    Marks((u: Unit) => u.kind.COMMA?, (u: Unit) => Ends(u.kind))
  }

  /** The definitions of the table whose body starts at `body`. */
  function DefinitionsOf(z: seq<Tok>, body: nat): seq<seq<Unit>>
    requires body <= |z|
  {
    Split(Units(z, body), UnitMarks())
  }

  /** From the step position `c` on, the columns `k`, `k + 1`, .. are defined, one after the
      other; their name tokens are those that the parser noted, and the last definition ends
      where it noted that a new column can be added. */
  ghost predicate ColumnsAt(z: seq<Tok>, c: nat, names: seq<nat>, k: nat, addColOffset: nat)
    decreases |names| - k
  {
    && k < |names| && c <= |z| && WellFormed(z, c, true) && names[k] == SkipSpace(z, c)
    && DefinitionEnd(z, c).Some?
    && var p := DefinitionEnd(z, c).value;
       if k + 1 == |names| then addColOffset == SkipSpace(z, p)
       else p <= |z| && TokenKind(z, p).COMMA? && ColumnsAt(z, TokenEnd(z, p), names, k + 1, addColOffset)
  }

  lemma {:induction false} RunIsOpen(z: seq<Tok>, i: nat, j: nat)
    requires i <= |z| && Reaches(z, i, j)
    ensures Open(Run(z, i, j), UnitMarks())
    decreases |z| - i
  {
    if i != j { RunIsOpen(z, TokenEnd(z, i), j); }
  }

  lemma {:induction false} NoCommasWithin(z: seq<Tok>, i: nat, j: nat)
    requires i <= |z| && Within(z, i, j)
    ensures Commas(Run(z, i, j), UnitMarks()) == 0
    decreases |z| - i
  {
    if i != j {
      NoCommasWithin(z, TokenEnd(z, i), j);
      assert Run(z, i, j)[1..] == Run(z, TokenEnd(z, i), j);
    }
  }

  /** One definition and its comma. */
  lemma {:induction false} OneColumn(z: seq<Tok>, c: nat, p: nat)
    requires c <= p <= |z| && Within(z, c, p) && TokenKind(z, p).COMMA?
    ensures var e := TokenEnd(z, p);
      && p < e <= |z| && Reaches(z, c, e) && Reaches(z, p, e)
      && Run(z, c, e) == Run(z, c, p) + [UnitAt(z, p)]
      && Commas(Run(z, c, e), UnitMarks()) == 1
  {
    var e := TokenEnd(z, p);
    assert Reaches(z, p, e);
    assert Run(z, p, e) == [UnitAt(z, p)];
    RunOn(z, c, p, e);
    NoCommasWithin(z, c, p);
    CommasConcat(Run(z, c, p), [UnitAt(z, p)], UnitMarks());
    assert [UnitAt(z, p)][1..] == [];
  }

  /** A definition starts after these units. */
  ghost predicate AtStart(us: seq<Unit>) { us == [] || us[|us| - 1].kind.COMMA? }

  lemma StartsOn(a: seq<Unit>, comma: Unit, b: seq<Unit>)
    requires comma.kind.COMMA? && AtStart(b)
    ensures AtStart((a + [comma]) + b)
  {
    var s := (a + [comma]) + b;
    assert b == [] ==> s[|s| - 1] == comma;
  }

  lemma {:induction false} StartIsEmpty(a: seq<Unit>)
    requires Open(a, UnitMarks()) && AtStart(a)
    ensures Commas(a, UnitMarks()) < |Split(a, UnitMarks())| && Split(a, UnitMarks())[Commas(a, UnitMarks())] == []
  {
    if a != [] {
      var n := |a| - 1;
      assert a == a[..n] + [a[n]];
      AfterComma(a[..n], a[n], UnitMarks());
    }
  }

  /** Where the definition of column `j` starts, and what comes before it. */
  lemma {:induction false} ColumnStart(z: seq<Tok>, c: nat, names: seq<nat>, k: nat, add: nat, j: nat) returns (s: nat)
    requires ColumnsAt(z, c, names, k, add) && k <= j < |names|
    ensures c <= s <= |z| && Reaches(z, c, s) && ColumnsAt(z, s, names, j, add)
    ensures Commas(Run(z, c, s), UnitMarks()) == j - k && AtStart(Run(z, c, s))
    decreases j - k
  {
    if j == k {
      s := c;
    } else {
      var p := DefinitionEnds(z, c, true);
      OneColumn(z, c, p);
      var e := TokenEnd(z, p);
      s := ColumnStart(z, e, names, k + 1, add, j);
      RunOn(z, c, e, s);
      CommasConcat(Run(z, c, e), Run(z, e, s), UnitMarks());
      StartsOn(Run(z, c, p), UnitAt(z, p), Run(z, e, s));
    }
  }

  /** `dropColumnFunc`, given the name tokens of the columns and `addColOffset`: None for
      SQLITE_CORRUPT. */
  method DropColumnText(z: seq<Tok>, body: nat, names: seq<nat>, addColOffset: nat, iCol: nat)
    returns (zNew: Option<seq<Tok>>)
    requires body <= |z| && ColumnsAt(z, body, names, 0, addColOffset)
    ensures zNew.None? <==> |names| == 1 || iCol >= |names|
    ensures zNew.Some? && iCol + 1 < |names| ==>
      names[iCol] <= names[iCol + 1] <= |z| && zNew.value == z[..names[iCol]] + z[names[iCol + 1]..]
    ensures zNew.Some? && iCol + 1 == |names| ==>
      var comma := CommaAfter(z, names[iCol - 1]);
      comma <= addColOffset <= |z| && zNew.value == z[..comma] + z[addColOffset..]
    ensures zNew.Some? ==>
      && body <= |zNew.value| && zNew.value[..body] == z[..body] && iCol < |DefinitionsOf(z, body)|
      && DefinitionsOf(zNew.value, body) == Removed(DefinitionsOf(z, body), iCol)
  {
    if |names| == 1 || iCol >= |names| {
      return None;
    }
    if iCol + 1 < |names| {
      MiddleColumnIsGone(z, body, names, addColOffset, iCol);
      return Some(z[..names[iCol]] + z[names[iCol + 1]..]);
    }
    ghost var s, p, e := LastColumn(z, body, names, addColOffset, iCol);
    LastColumnIsGone(z, body, names, addColOffset, iCol);
    var at, eTok := names[iCol - 1], ILLEGAL;
    ghost var from := at;
    while true
      invariant at <= |z| && CommaAfter(z, at) == CommaAfter(z, from) < |z|
      decreases |z| - at
    {
      at, eTok := GetConstraintToken(z, at);
      if eTok.COMMA? { break; }
    }
    return Some(z[..at - 1] + z[addColOffset..]);
  }

  /** The first comma outside parentheses from `i` on; the length when there is none. */
  function CommaAfter(z: seq<Tok>, i: nat): nat
    decreases |z| - i
  {
    var t := TokenKind(z, i);
    if t.COMMA? then TokenEnd(z, i) - 1
    else if i >= |z| then |z|
    else CommaAfter(z, TokenEnd(z, i))
  }

  lemma {:induction false} CommaIs(z: seq<Tok>, i: nat, p: nat)
    requires i <= |z| && Within(z, i, p) && TokenKind(z, p).COMMA?
    ensures CommaAfter(z, i) == SkipSpace(z, p) < |z|
    decreases |z| - i
  {
    if i == p {
      StepOverComma(z, p);
    } else {
      CommaIs(z, TokenEnd(z, i), p);
    }
  }

  lemma {:induction false} CommaSkips(z: seq<Tok>, c: nat)
    requires c <= |z| && !TokenKind(z, c).ILLEGAL?
    ensures CommaAfter(z, SkipSpace(z, c)) == CommaAfter(z, c)
  {
    SkipMore(z, c, SkipSpace(z, c));
  }

  lemma {:induction false} SkipGrows(z: seq<Tok>, i: nat, j: nat)
    requires i <= |z| && Reaches(z, i, j)
    ensures SkipSpace(z, i) <= SkipSpace(z, j) <= |z|
  {
    if i != j {
      TokenAfterSpace(z, i);
    }
  }

  /** The positions between which a column other than the last is cut out. */
  lemma MiddleColumn(z: seq<Tok>, body: nat, names: seq<nat>, add: nat, iCol: nat) returns (s: nat, p: nat)
    requires body <= |z| && ColumnsAt(z, body, names, 0, add) && iCol + 1 < |names|
    ensures body <= s <= p < TokenEnd(z, p) <= |z| && Reaches(z, body, s) && Within(z, s, p) && TokenKind(z, p).COMMA?
    ensures Commas(Run(z, body, s), UnitMarks()) == iCol && AtStart(Run(z, body, s))
    ensures names[iCol] == SkipSpace(z, s) <= names[iCol + 1] == SkipSpace(z, TokenEnd(z, p)) <= |z|
    ensures WellFormed(z, TokenEnd(z, p), true)
  {
    s := ColumnStart(z, body, names, 0, add, iCol);
    p := DefinitionEnds(z, s, true);
    OneColumn(z, s, p);
    SkipGrows(z, s, TokenEnd(z, p));
  }

  /** The positions between which the last column is cut out. */
  lemma LastColumn(z: seq<Tok>, body: nat, names: seq<nat>, add: nat, iCol: nat) returns (s: nat, p: nat, e: nat)
    requires body <= |z| && ColumnsAt(z, body, names, 0, add) && 0 < iCol && iCol + 1 == |names|
    ensures body <= s <= p < TokenEnd(z, p) <= e <= |z| && Reaches(z, body, s) && Within(z, s, p)
    ensures TokenKind(z, p).COMMA? && Within(z, TokenEnd(z, p), e) && WellFormed(z, e, false)
    ensures TokenKind(z, e).COMMA? || TokenKind(z, e).RP?
    ensures Commas(Run(z, body, s), UnitMarks()) == iCol - 1 && AtStart(Run(z, body, s))
    ensures CommaAfter(z, names[iCol - 1]) == SkipSpace(z, p) <= add == SkipSpace(z, e) <= |z|
    ensures CommaAfter(z, names[iCol - 1]) < |z| && names[iCol - 1] <= |z|
  {
    s := ColumnStart(z, body, names, 0, add, iCol - 1);
    p := DefinitionEnds(z, s, true);
    OneColumn(z, s, p);
    e := DefinitionEnds(z, TokenEnd(z, p), true);
    CommaIs(z, s, p);
    CommaSkips(z, s);
    SkipGrows(z, s, s);
    assert Reaches(z, p, e) by { assert Within(z, TokenEnd(z, p), e); }
    SkipGrows(z, p, e);
  }

  /** `r` is `z` from the start up to `p` and from the step position `e` on; the steps before
      `p` end at `c`. */
  lemma {:induction false} CutUnits(z: seq<Tok>, body: nat, c: nat, e: nat, first: bool, r: seq<Tok>)
    requires body <= c && Reaches(z, body, c) && SkipSpace(z, c) <= |z|
    requires c <= e <= |z| && WellFormed(z, e, first) && SkipSpace(z, e) <= |z|
    requires r == z[..SkipSpace(z, c)] + z[SkipSpace(z, e)..]
    ensures body <= |r| && r[..body] == z[..body] && Units(r, body) == Run(z, body, c) + Units(z, e)
  {
    var p := SkipSpace(z, c);
    assert r == z[..p] + [] + z[SkipSpace(z, e)..];
    Joined(z, p, [], SkipSpace(z, e), r);
    MidIsSkipped(z, p, [], e, r);
    SplicedRest(z, c, p, e, first, r);
    Spliced(z, body, c, p, e, r);
  }

  lemma {:induction false} TwoRuns(z: seq<Tok>, i: nat, j: nat, k: nat)
    requires i <= |z| && Reaches(z, i, j) && Reaches(z, j, k)
    ensures Units(z, i) == Run(z, i, j) + (Run(z, j, k) + Units(z, k))
  {
    RunThenUnits(z, i, j);
    RunThenUnits(z, j, k);
  }

  lemma {:induction false} StepThenUnits(z: seq<Tok>, p: nat)
    requires p <= |z| && TokenKind(z, p).COMMA?
    ensures Units(z, p) == [UnitAt(z, p)] + Units(z, TokenEnd(z, p))
  {
  }

  /** DROP COLUMN on a column other than the last takes its definition out of the table and
      leaves all other definitions, and all around them, as they were. */
  lemma {:induction false} MiddleColumnIsGone(z: seq<Tok>, body: nat, names: seq<nat>, add: nat, iCol: nat)
    requires body <= |z| && ColumnsAt(z, body, names, 0, add) && iCol + 1 < |names|
    ensures names[iCol] <= names[iCol + 1] <= |z|
    ensures var r := z[..names[iCol]] + z[names[iCol + 1]..];
      && body <= |r| && r[..body] == z[..body] && iCol < |DefinitionsOf(z, body)|
      && DefinitionsOf(r, body) == Removed(DefinitionsOf(z, body), iCol)
  {
    var s, p := MiddleColumn(z, body, names, add, iCol);
    var e := TokenEnd(z, p);
    CutUnits(z, body, s, e, true, z[..names[iCol]] + z[names[iCol + 1]..]);
    TwoRuns(z, body, s, p);
    StepThenUnits(z, p);
    RunIsOpen(z, body, s);
    RunIsOpen(z, s, p);
    NoCommasWithin(z, s, p);
    StartIsEmpty(Run(z, body, s));
    WithoutFirst(Run(z, body, s), Run(z, s, p), UnitAt(z, p), Units(z, e), UnitMarks());
  }

  lemma {:induction false} EndIsEmpty(z: seq<Tok>, e: nat)
    requires e <= |z| && (TokenKind(z, e).COMMA? || TokenKind(z, e).RP?)
    ensures Split(Units(z, e), UnitMarks())[0] == []
  {
  }

  /** The same for the last column, with the comma before it. */
  lemma LastColumnIsGone(z: seq<Tok>, body: nat, names: seq<nat>, add: nat, iCol: nat)
    requires body <= |z| && ColumnsAt(z, body, names, 0, add) && 0 < iCol && iCol + 1 == |names|
    ensures CommaAfter(z, names[iCol - 1]) <= add <= |z|
    ensures var r := z[..CommaAfter(z, names[iCol - 1])] + z[add..];
      && body <= |r| && r[..body] == z[..body] && iCol < |DefinitionsOf(z, body)|
      && DefinitionsOf(r, body) == Removed(DefinitionsOf(z, body), iCol)
  {
    var s, p, e := LastColumn(z, body, names, add, iCol);
    var f := TokenEnd(z, p);
    WithinThen(z, s, p, p);
    RunOn(z, body, s, p);
    CutUnits(z, body, p, e, false, z[..SkipSpace(z, p)] + z[add..]);
    RunThenUnits(z, body, p);
    StepThenUnits(z, p);
    RunThenUnits(z, f, e);
    RunIsOpen(z, body, p);
    RunIsOpen(z, f, e);
    NoCommasWithin(z, f, e);
    NoCommasWithin(z, s, p);
    CommasConcat(Run(z, body, s), Run(z, s, p), UnitMarks());
    EndIsEmpty(z, e);
    WithoutLast(Run(z, body, p), UnitAt(z, p), Run(z, f, e), Units(z, e), UnitMarks());
  }
}
