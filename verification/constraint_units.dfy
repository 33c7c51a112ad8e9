/** The body of a CREATE TABLE statement as the list of what `getConstraintToken` steps over,
    and what an edit elsewhere in the text leaves of it. */
module ConstraintUnits {
  import opened SqlTokens

  /** One step of `getConstraintToken` without the white space before it; for the step that
      ends the body, everything up to the end of the statement. */
  datatype Unit = Unit(kind: Kind, toks: seq<Tok>)

  predicate Ends(t: Kind) { t.RP? || t.ILLEGAL? }

  /** `z[i..j]`. */
  function Piece(z: seq<Tok>, i: nat, j: nat): seq<Tok>
    requires j <= |z|
    decreases j - i
  {
    if i >= j then [] else [z[i]] + Piece(z, i + 1, j)
  }

  function UnitAt(z: seq<Tok>, i: nat): Unit
    requires i <= |z|
  {
    var t := TokenKind(z, i);
    Unit(t, Piece(z, SkipSpace(z, i), if Ends(t) then |z| else TokenEnd(z, i)))
  }

  function Units(z: seq<Tok>, i: nat): seq<Unit>
    requires i <= |z|
    decreases |z| - i
  {
    [UnitAt(z, i)] + if Ends(TokenKind(z, i)) then [] else Units(z, TokenEnd(z, i))
  }

  /** Steps of `getConstraintToken` lead from `i` to `j` inside the body. */
  ghost predicate Reaches(z: seq<Tok>, i: nat, j: nat)
    ensures Reaches(z, i, j) ==> i <= j && (i <= |z| ==> j <= |z|)
    decreases |z| - i
  {
    i == j || (!Ends(TokenKind(z, i)) && Reaches(z, TokenEnd(z, i), j))
  }

  /** What those steps pass. */
  ghost function Run(z: seq<Tok>, i: nat, j: nat): seq<Unit>
    requires i <= |z| && Reaches(z, i, j)
    decreases |z| - i
  {
    if i == j then [] else [UnitAt(z, i)] + Run(z, TokenEnd(z, i), j)
  }

  lemma AssocUnits(a: seq<Unit>, b: seq<Unit>, c: seq<Unit>)
    ensures (a + b) + c == a + (b + c)
  {
  }

  lemma {:induction false} RunThenUnits(z: seq<Tok>, i: nat, j: nat)
    requires i <= |z| && Reaches(z, i, j)
    ensures Units(z, i) == Run(z, i, j) + Units(z, j)
    decreases |z| - i
  {
    if i != j {
      RunThenUnits(z, TokenEnd(z, i), j);
      AssocUnits([UnitAt(z, i)], Run(z, TokenEnd(z, i), j), Units(z, j));
    }
  }

  lemma {:induction false} RunOn(z: seq<Tok>, i: nat, j: nat, k: nat)
    requires i <= |z| && Reaches(z, i, j) && Reaches(z, j, k)
    ensures Reaches(z, i, k) && Run(z, i, k) == Run(z, i, j) + Run(z, j, k)
    decreases |z| - i
  {
    if i != j {
      RunOn(z, TokenEnd(z, i), j, k);
      AssocUnits([UnitAt(z, i)], Run(z, TokenEnd(z, i), j), Run(z, j, k));
    }
  }

  // ---- White space ----

  /** Leading white space does not matter. */
  lemma {:induction false} SkipMore(z: seq<Tok>, i: nat, j: nat)
    requires i <= j <= SkipSpace(z, i)
    ensures SkipSpace(z, j) == SkipSpace(z, i)
    ensures TokenKind(z, j) == TokenKind(z, i) && TokenEnd(z, j) == TokenEnd(z, i)
    decreases j - i
  {
    if i < j { SkipMore(z, i + 1, j); }
  }

  lemma {:induction false} UnitsSkip(z: seq<Tok>, i: nat, j: nat)
    requires i <= j <= SkipSpace(z, i) && j <= |z|
    ensures Units(z, j) == Units(z, i)
  {
    SkipMore(z, i, j);
  }

  // ---- Copies ----

  /** The tokens of `z` from `lo` to `hi` stand in `r`, `d` places further on. */
  ghost predicate Copied(z: seq<Tok>, lo: nat, hi: nat, r: seq<Tok>, d: int)
    decreases hi - lo
  {
    && lo <= hi <= |z| && 0 <= lo + d && hi + d <= |r|
    && (lo < hi ==> z[lo] == r[lo + d] && Copied(z, lo + 1, hi, r, d))
  }

  lemma {:induction false} CopiedAt(z: seq<Tok>, lo: nat, hi: nat, r: seq<Tok>, d: int, k: nat)
    requires Copied(z, lo, hi, r, d) && lo <= k < hi
    ensures 0 <= k + d < |r| && z[k] == r[k + d]
    decreases hi - lo
  {
    if lo < k { CopiedAt(z, lo + 1, hi, r, d, k); }
  }

  lemma {:induction false} IsCopied(z: seq<Tok>, lo: nat, hi: nat, r: seq<Tok>, d: int)
    requires lo <= hi <= |z| && 0 <= lo + d && hi + d <= |r|
    requires forall k :: lo <= k < hi ==> z[k] == r[k + d]
    ensures Copied(z, lo, hi, r, d)
    decreases hi - lo
  {
    if lo < hi { IsCopied(z, lo + 1, hi, r, d); }
  }

  lemma {:induction false} CopiedSpace(z: seq<Tok>, lo: nat, hi: nat, r: seq<Tok>, d: int, i: nat)
    requires Copied(z, lo, hi, r, d) && lo <= i && SkipSpace(z, i) < hi
    ensures 0 <= i + d && SkipSpace(r, i + d) == SkipSpace(z, i) + d
    decreases |z| - i
  {
    CopiedAt(z, lo, hi, r, d, i);
    if Blank(KindAt(z, i)) { CopiedSpace(z, lo, hi, r, d, i + 1); }
  }

  lemma {:induction false} CopiedGroup(z: seq<Tok>, lo: nat, hi: nat, r: seq<Tok>, d: int, i: nat, nest: nat)
    requires Copied(z, lo, hi, r, d) && lo <= i && Closes(z, i, nest) && GroupEnd(z, i, nest) <= hi && i <= hi
    ensures 0 <= i + d && Closes(r, i + d, nest) && GroupEnd(r, i + d, nest) == GroupEnd(z, i, nest) + d
    decreases |z| - i
  {
    if nest > 0 {
      CopiedAt(z, lo, hi, r, d, i);
      var t := KindAt(z, i);
      CopiedGroup(z, lo, hi, r, d, i + 1, Nesting(t, nest));
    }
  }

  lemma {:induction false} CopiedToken(z: seq<Tok>, lo: nat, hi: nat, r: seq<Tok>, d: int, i: nat)
    requires Copied(z, lo, hi, r, d) && lo <= i && !TokenKind(z, i).ILLEGAL? && TokenEnd(z, i) <= hi
    ensures 0 <= i + d && SkipSpace(r, i + d) == SkipSpace(z, i) + d
    ensures TokenKind(r, i + d) == TokenKind(z, i) && TokenEnd(r, i + d) == TokenEnd(z, i) + d
    decreases |z| - i
  {
    CopiedAt(z, lo, hi, r, d, i);
    if Blank(KindAt(z, i)) {
      CopiedToken(z, lo, hi, r, d, i + 1);
    } else if KindAt(z, i).LP? {
      CopiedGroup(z, lo, hi, r, d, i + 1, 1);
    }
  }

  lemma {:induction false} CopiedPiece(z: seq<Tok>, lo: nat, hi: nat, r: seq<Tok>, d: int, i: nat, j: nat)
    requires Copied(z, lo, hi, r, d) && lo <= i && j <= hi
    ensures i < j ==> 0 <= i + d
    ensures i < j ==> Piece(r, i + d, j + d) == Piece(z, i, j)
    decreases j - i
  {
    if i < j {
      CopiedAt(z, lo, hi, r, d, i);
      CopiedPiece(z, lo, hi, r, d, i + 1, j);
    }
  }

  lemma {:induction false} CopiedUnit(z: seq<Tok>, lo: nat, hi: nat, r: seq<Tok>, d: int, i: nat)
    requires Copied(z, lo, hi, r, d) && lo <= i && !TokenKind(z, i).ILLEGAL? && TokenEnd(z, i) <= hi
    requires TokenKind(z, i).RP? ==> hi == |z| && hi + d == |r|
    ensures 0 <= i + d && UnitAt(r, i + d) == UnitAt(z, i)
  {
    CopiedToken(z, lo, hi, r, d, i);
    CopiedPiece(z, lo, hi, r, d, SkipSpace(z, i), if TokenKind(z, i).RP? then |z| else TokenEnd(z, i));
  }

  lemma {:induction false} CopiedRun(z: seq<Tok>, lo: nat, hi: nat, r: seq<Tok>, d: int, i: nat, j: nat)
    requires Copied(z, lo, hi, r, d) && lo <= i <= |z| && Reaches(z, i, j) && j <= hi
    ensures 0 <= i + d <= |r| && Reaches(r, i + d, j + d) && Run(r, i + d, j + d) == Run(z, i, j)
    decreases |z| - i
  {
    if i != j {
      CopiedToken(z, lo, hi, r, d, i);
      CopiedUnit(z, lo, hi, r, d, i);
      CopiedRun(z, lo, hi, r, d, TokenEnd(z, i), j);
    } else {
      CopiedBounds(z, lo, hi, r, d, i);
    }
  }

  lemma {:induction false} CopiedBounds(z: seq<Tok>, lo: nat, hi: nat, r: seq<Tok>, d: int, k: nat)
    requires Copied(z, lo, hi, r, d) && lo <= k <= hi
    ensures 0 <= k + d <= |r|
  {
  }

  // ---- Statements that the parser accepts ----

  /** What can follow the CONSTRAINT keyword. */
  predicate NameKind(t: Kind)
  {
    !t.LP? && !t.RP? && !t.COMMA? && !t.ILLEGAL? && !t.CONSTRAINT? && !t.NOT?
  }

  /** From `i` on, the body has no empty definition, a name after each CONSTRAINT, and its
      closing parenthesis.  `first`: a definition starts here. */
  predicate WellFormed(z: seq<Tok>, i: nat, first: bool)
    decreases |z| - i
  {
    var t := TokenKind(z, i);
    var e := TokenEnd(z, i);
    if t.ILLEGAL? then false
    else if t.RP? then !first
    else if t.COMMA? then !first && WellFormed(z, e, true)
    else (t.CONSTRAINT? ==> NameKind(TokenKind(z, e))) && WellFormed(z, e, false)
  }

  lemma {:induction false} WellFormedOn(z: seq<Tok>, i: nat, first: bool, j: nat)
    requires WellFormed(z, i, first) && Reaches(z, i, j)
    ensures WellFormed(z, j, true) || WellFormed(z, j, false)
    decreases |z| - i
  {
    if i != j { WellFormedOn(z, TokenEnd(z, i), TokenKind(z, i).COMMA?, j); }
  }

  lemma {:induction false} CopiedForm(z: seq<Tok>, lo: nat, r: seq<Tok>, d: int, i: nat, first: bool)
    requires Copied(z, lo, |z|, r, d) && lo <= i <= |z| && WellFormed(z, i, first)
    ensures 0 <= i + d && WellFormed(r, i + d, first)
    decreases |z| - i
  {
    CopiedToken(z, lo, |z|, r, d, i);
    var t := TokenKind(z, i);
    if !t.RP? {
      CopiedForm(z, lo, r, d, TokenEnd(z, i), t.COMMA?);
      if t.CONSTRAINT? { CopiedToken(z, lo, |z|, r, d, TokenEnd(z, i)); }
    }
  }

  /** A step and its unit, copied together with all that follows. */
  lemma CopiedStep(z: seq<Tok>, lo: nat, r: seq<Tok>, d: int, i: nat)
    requires Copied(z, lo, |z|, r, d) && |z| + d == |r| && lo <= i <= |z| && !TokenKind(z, i).ILLEGAL?
    ensures 0 <= i + d <= |r| && 0 <= TokenEnd(z, i) + d
    ensures TokenKind(r, i + d) == TokenKind(z, i) && TokenEnd(r, i + d) == TokenEnd(z, i) + d
    ensures UnitAt(r, i + d) == UnitAt(z, i)
  {
    CopiedToken(z, lo, |z|, r, d, i);
    CopiedUnit(z, lo, |z|, r, d, i);
  }

  /** A well-formed rest of a statement that ends another statement has the same units there. */
  lemma {:induction false} CopiedUnits(z: seq<Tok>, lo: nat, r: seq<Tok>, d: int, i: nat, first: bool)
    requires Copied(z, lo, |z|, r, d) && |z| + d == |r| && lo <= i <= |z| && WellFormed(z, i, first)
    ensures 0 <= i + d && Units(r, i + d) == Units(z, i)
    decreases |z| - i
  {
    CopiedStep(z, lo, r, d, i);
    var t := TokenKind(z, i);
    if t.RP? {
      assert Units(r, i + d) == [UnitAt(z, i)];
    } else {
      CopiedUnits(z, lo, r, d, TokenEnd(z, i), t.COMMA?);
      assert Units(r, i + d) == [UnitAt(z, i)] + Units(z, TokenEnd(z, i));
    }
  }
}
