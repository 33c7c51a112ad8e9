/** ADD CONSTRAINT followed by DROP CONSTRAINT gives back the statement byte for byte. */
module ConstraintRoundtrip {
  import opened Options
  import opened SqlTokens
  import opened ConstraintScan
  import opened ConstraintUnits
  import opened ConstraintLaws
  import opened ConstraintEdits

  // ---- Where ADD CONSTRAINT inserts ----

  lemma {:induction false} DefinitionEnds(z: seq<Tok>, i: nat, first: bool) returns (p: nat)
    requires i <= |z| && WellFormed(z, i, first)
    ensures i <= p <= |z| && DefinitionEnd(z, i) == Some(p) && Within(z, i, p) && WellFormed(z, p, false)
    ensures TokenKind(z, p).COMMA? || TokenKind(z, p).RP?
    decreases |z| - i
  {
    var t := TokenKind(z, i);
    if t.COMMA? || t.RP? {
      p := i;
    } else {
      p := DefinitionEnds(z, TokenEnd(z, i), false);
    }
  }

  /** With a negative column number, the place is the end of the body. */
  lemma {:induction false} AddsAtTheEnd(z: seq<Tok>, i: nat, first: bool) returns (p: nat)
    requires i <= |z| && WellFormed(z, i, first)
    requires first || TokenKind(z, i).COMMA?
    ensures i <= p <= |z| && AddAt(z, i, -1) == Some(p) && Reaches(z, i, p)
    ensures TokenKind(z, p).RP? && WellFormed(z, p, false)
    decreases |z| - i
  {
    var e := TokenEnd(z, i);
    var d := DefinitionEnds(z, e, !first);
    if TokenKind(z, d).RP? {
      p := d;
    } else {
      p := AddsAtTheEnd(z, d, false);
      RunOn(z, e, d, p);
    }
  }

  // ---- What the new text has in common with the old ----

  lemma {:induction false} BodyStartCopied(z: seq<Tok>, hi: nat, r: seq<Tok>, i: nat)
    requires Copied(z, 0, hi, r, 0) && BodyStart(z, i).Some? && BodyStart(z, i).value <= hi
    ensures BodyStart(r, i) == BodyStart(z, i)
    decreases |z| - i
  {
    CopiedAt(z, 0, hi, r, 0, i);
    if !KindAt(z, i).LP? { BodyStartCopied(z, hi, r, i + 1); }
  }

  lemma {:induction false} TextCopied(z: seq<Tok>, lo: nat, hi: nat, r: seq<Tok>, d: int, i: nat, j: nat)
    requires Copied(z, lo, hi, r, d) && lo <= i <= j <= hi
    ensures 0 <= i + d <= j + d <= |r| && TextOf(r, i + d, j + d) == TextOf(z, i, j)
    decreases j - i
  {
    if i < j {
      CopiedAt(z, lo, hi, r, d, i);
      TextCopied(z, lo, hi, r, d, i + 1, j);
    } else {
      CopiedBounds(z, lo, hi, r, d, i);
    }
  }

  lemma {:induction false} NameWhere(z: seq<Tok>, i: nat)
    ensures NameEnd(z, i) == TokenEnd(z, TokenEnd(z, i))
    ensures TokenKind(z, NameStart(z, i)) == TokenKind(z, TokenEnd(z, i))
  {
    SkipMore(z, TokenEnd(z, i), NameStart(z, i));
  }

  /** Two steps in a row, copied. */
  lemma TwoCopied(z: seq<Tok>, lo: nat, hi: nat, r: seq<Tok>, d: int, i: nat, a: nat)
    requires Copied(z, lo, hi, r, d) && lo <= i && a == TokenEnd(z, i)
    requires !TokenKind(z, i).ILLEGAL? && !TokenKind(z, a).ILLEGAL? && TokenEnd(z, a) <= hi
    ensures 0 <= i + d && 0 <= a + d && TokenEnd(r, i + d) == a + d
    ensures SkipSpace(r, a + d) == SkipSpace(z, a) + d
    ensures TokenKind(r, a + d) == TokenKind(z, a) && TokenEnd(r, a + d) == TokenEnd(z, a) + d
  {
    CopiedToken(z, lo, hi, r, d, i);
    CopiedToken(z, lo, hi, r, d, a);
  }

  /** A CONSTRAINT token and the name after it, copied together. */
  lemma {:induction false} NameCopied(z: seq<Tok>, lo: nat, hi: nat, r: seq<Tok>, d: int, i: nat,
                                      spells: string -> bool)
    requires Copied(z, lo, hi, r, d) && lo <= i <= |z| && 0 <= i + d <= |r|
    requires !TokenKind(z, i).ILLEGAL? && !TokenKind(z, TokenEnd(z, i)).ILLEGAL?
    requires TokenEnd(z, TokenEnd(z, i)) <= hi
    ensures NameEnd(r, i + d) == NameEnd(z, i) + d
    ensures Names(r, i + d, spells) == Names(z, i, spells)
  {
    TwoCopied(z, lo, hi, r, d, i, TokenEnd(z, i));
    NameWhere(z, i);
    NameWhere(r, i + d);
    var n, e := NameStart(z, i), NameEnd(z, i);
    assert TextOf(r, n + d, e + d) == TextOf(z, n, e) by { TextCopied(z, lo, hi, r, d, n, e); }
  }

  /** The name of a constraint lies before any COMMA or RP that the steps reach. */
  lemma {:induction false} NameLiesBefore(z: seq<Tok>, i: nat, first: bool, p: nat)
    requires i <= |z| && WellFormed(z, i, first) && TokenKind(z, i).CONSTRAINT?
    requires i < p && Reaches(z, i, p) && (TokenKind(z, p).COMMA? || TokenKind(z, p).RP?)
    ensures !TokenKind(z, TokenEnd(z, i)).ILLEGAL? && TokenEnd(z, TokenEnd(z, i)) <= p
  {
  }

  /** What comes before the end of the body is still well-formed when the rest of the statement
      is replaced by something well-formed. */
  lemma {:induction false} StartStays(z: seq<Tok>, i: nat, first: bool, p: nat, r: seq<Tok>)
    requires i <= |z| && WellFormed(z, i, first) && Reaches(z, i, p) && TokenKind(z, p).RP?
    requires Copied(z, 0, p, r, 0) && WellFormed(r, p, false)
    ensures WellFormed(r, i, first)
    decreases |z| - i
  {
    if i != p {
      var e := TokenEnd(z, i);
      CopiedToken(z, 0, p, r, 0, i);
      StartStays(z, e, TokenKind(z, i).COMMA?, p, r);
      if TokenKind(z, i).CONSTRAINT? {
        NameLiesBefore(z, i, first, p);
        CopiedToken(z, 0, p, r, 0, e);
      }
    }
  }

  /** And it is as free of the name. */
  lemma {:induction false} NoNameStays(z: seq<Tok>, i: nat, first: bool, p: nat, r: seq<Tok>, spells: string -> bool)
    requires i <= |z| && WellFormed(z, i, first) && Reaches(z, i, p) && TokenKind(z, p).RP?
    requires Copied(z, 0, p, r, 0) && p <= |r| && FirstNamed(z, i, spells) == None
    ensures FirstNamed(r, i, spells) == FirstNamed(r, p, spells)
    decreases |z| - i
  {
    if i != p {
      CopiedToken(z, 0, p, r, 0, i);
      NoNameStays(z, TokenEnd(z, i), TokenKind(z, i).COMMA?, p, r, spells);
      if TokenKind(z, i).CONSTRAINT? {
        NameLiesBefore(z, i, first, p);
        NameCopied(z, 0, p, r, 0, i, spells);
      }
    }
  }

  // ---- The duplicate check ----

  lemma {:induction false} FindsAfterSpace(z: seq<Tok>, i: nat, j: nat, spells: string -> bool)
    requires i <= j <= SkipSpace(z, i) && j <= |z|
    ensures Finds(z, j, spells) == Finds(z, i, spells)
  {
    SkipMore(z, i, j);
    if TokenKind(z, i).CONSTRAINT? {
      assert NameStart(z, j) == NameStart(z, i);
    }
  }

  lemma {:induction false} NotFoundIsNotNamed(z: seq<Tok>, i: nat, spells: string -> bool)
    requires i <= |z| && !Finds(z, i, spells)
    ensures FirstNamed(z, i, spells) == None
    decreases |z| - i
  {
    var t := TokenKind(z, i);
    if !Ends(t) {
      if t.CONSTRAINT? { FindsAfterSpace(z, TokenEnd(z, i), NameStart(z, i), spells); }
      NotFoundIsNotNamed(z, TokenEnd(z, i), spells);
    }
  }

  lemma {:induction false} FindStartsAtBody(z: seq<Tok>, i: nat)
    requires BodyStart(z, i).Some?
    ensures FindStart(z, i) == BodyStart(z, i).value
    decreases |z| - i
  {
    if !KindAt(z, i).LP? { FindStartsAtBody(z, i + 1); }
  }

  // ---- The constraint that is added ----

  const CLOSE := Tok(RP, ")")

  /** `c` is one CHECK constraint with the name, and then a closing parenthesis: what the
      search of `dropConstraintFunc` sees of a constraint that is the last definition. */
  ghost predicate IsClosedCheck(c: seq<Tok>, spells: string -> bool)
  {
    && c != [] && c[0].kind.CONSTRAINT? && c[|c| - 1].kind.RP?
    && WellFormed(c, 0, true) && Names(c, 0, spells) && NamedType(c, 0).CHECK?
    && SkipSpace(c, NamedEnd(c, 0)) == |c| - 1
  }

  /** `cons` is one CHECK constraint with the name and nothing else. */
  ghost predicate IsNamedCheck(cons: seq<Tok>, spells: string -> bool)
  {
    cons != [] && IsClosedCheck(cons + [CLOSE], spells)
  }

  lemma {:induction false} EndCopied(z: seq<Tok>, lo: nat, r: seq<Tok>, d: int, i: nat)
    requires Copied(z, lo, |z|, r, d) && lo <= i <= |z| && WellFormed(z, i, false)
    ensures 0 <= i + d && ConstraintEnd(r, i + d) == ConstraintEnd(z, i) + d
    decreases |z| - i
  {
    CopiedToken(z, lo, |z|, r, d, i);
    if !Stops(TokenKind(z, i)) { EndCopied(z, lo, r, d, TokenEnd(z, i)); }
  }

  lemma {:induction false} TypeCopied(z: seq<Tok>, lo: nat, r: seq<Tok>, d: int, b: nat)
    requires Copied(z, lo, |z|, r, d) && lo <= b <= |z| && WellFormed(z, b, false)
    requires !EndsAtName(TokenKind(z, b)) ==> WellFormed(z, TokenEnd(z, b), false)
    ensures 0 <= b + d && TokenKind(r, b + d) == TokenKind(z, b)
    ensures !EndsAtName(TokenKind(z, b)) ==>
      ConstraintEnd(r, TokenEnd(r, b + d)) == ConstraintEnd(z, TokenEnd(z, b)) + d
  {
    CopiedToken(z, lo, |z|, r, d, b);
    if !EndsAtName(TokenKind(z, b)) {
      EndCopied(z, lo, r, d, TokenEnd(z, b));
    }
  }

  /** A well-formed constraint, copied up to the end of its body. */
  lemma {:induction false} NamedEndCopied(z: seq<Tok>, lo: nat, r: seq<Tok>, d: int, i: nat, first: bool,
                                          spells: string -> bool)
    requires Copied(z, lo, |z|, r, d) && lo <= i <= |z| && 0 <= i + d <= |r|
    requires WellFormed(z, i, first) && TokenKind(z, i).CONSTRAINT?
    ensures NamedEnd(r, i + d) == NamedEnd(z, i) + d && NamedType(r, i + d) == NamedType(z, i)
    ensures Names(r, i + d, spells) == Names(z, i, spells)
  {
    NamedShape(z, i, first);
    NameCopied(z, lo, |z|, r, d, i, spells);
    TypeCopied(z, lo, r, d, NameEnd(z, i));
  }

  // ---- The round trip ----

  /** How ADD CONSTRAINT puts the new text together: `q` is the closing parenthesis of the body. */
  lemma AddedJoins(z: seq<Tok>, cons: seq<Tok>, q: nat, spells: string -> bool) returns (r: seq<Tok>, c: seq<Tok>)
    requires q < |z| && z[q] == CLOSE && IsNamedCheck(cons, spells)
    ensures r == z[..q] + [Tok(COMMA, ","), SPACE_TOK] + cons + z[q..]
    ensures c == cons + [CLOSE] && IsClosedCheck(c, spells)
    ensures q + 1 + |c| < |r| && r[..q] + r[q + 1 + |c|..] == z
    ensures r[q].kind.COMMA? && r[q + 1].kind.SPACE? && r[q + 2].kind.CONSTRAINT?
    ensures Copied(z, 0, q, r, 0) && Copied(c, 0, |c|, r, q + 2)
  {
    r := z[..q] + [Tok(COMMA, ","), SPACE_TOK] + cons + z[q..];
    c := cons + [CLOSE];
    JoinIsAt(z, cons, q, r);
    IsCopied(z, 0, q, r, 0);
    IsCopied(c, 0, |c|, r, q + 2);
    assert c[0] == cons[0];
    assert r[..q] + r[q + 2 + |cons|..] == z[..q] + z[q..] == z;
  }

  lemma JoinIsAt(z: seq<Tok>, cons: seq<Tok>, q: nat, r: seq<Tok>)
    requires q < |z| && z[q] == CLOSE && cons != []
    requires r == z[..q] + [Tok(COMMA, ","), SPACE_TOK] + cons + z[q..]
    ensures |r| == |z| + 2 + |cons| && r[..q] == z[..q] && r[q + 2 + |cons|..] == z[q..]
    ensures r[q] == Tok(COMMA, ",") && r[q + 1] == SPACE_TOK && r[q + 2] == cons[0]
    ensures forall k :: 0 <= k < q ==> z[k] == r[k]
    ensures forall k :: 0 <= k < |cons| + 1 ==> (cons + [CLOSE])[k] == r[k + (q + 2)]
    ensures forall k :: q <= k < |z| ==> z[k] == r[k + (2 + |cons|)]
  {
  }

  /** A comma, a space and a constraint at `p`, `q` being the comma: what the search sees. */
  lemma SeenAfterComma(r: seq<Tok>, p: nat, q: nat)
    requires p <= q && q + 2 < |r| && SkipSpace(r, p) == q
    requires r[q].kind.COMMA? && r[q + 1].kind.SPACE? && r[q + 2].kind.CONSTRAINT?
    ensures TokenKind(r, p).COMMA? && TokenEnd(r, p) == q + 1
    ensures SkipSpace(r, q + 1) == q + 2
    ensures TokenKind(r, q + 1) == TokenKind(r, q + 2) && TokenEnd(r, q + 1) == TokenEnd(r, q + 2)
  {
    TokenAfterSpace(r, p);
    assert SkipSpace(r, q + 2) == q + 2;
    SkipMore(r, q + 1, q + 2);
  }

  lemma {:induction false} SameAfterSpace(r: seq<Tok>, i: nat, j: nat, spells: string -> bool)
    requires i <= |r| && j <= |r| && TokenKind(r, i) == TokenKind(r, j) && TokenEnd(r, i) == TokenEnd(r, j)
    ensures NamedEnd(r, i) == NamedEnd(r, j) && NamedType(r, i) == NamedType(r, j)
    ensures Names(r, i, spells) == Names(r, j, spells)
  {
  }

  /** What the search sees of the added constraint, from the space before it. */
  lemma AddedIsSeen(c: seq<Tok>, r: seq<Tok>, p: nat, q: nat, spells: string -> bool)
    requires Copied(c, 0, |c|, r, q + 2) && IsClosedCheck(c, spells)
    requires p <= q && q + 2 < |r| && SkipSpace(r, p) == q
    requires r[q].kind.COMMA? && r[q + 1].kind.SPACE? && r[q + 2].kind.CONSTRAINT?
    ensures WellFormed(r, p, false) && FirstNamed(r, p, spells) == Some(q + 1)
    ensures NamedEnd(r, q + 1) == NamedEnd(c, 0) + q + 2 && NamedType(r, q + 1).CHECK?
  {
    SeenAfterComma(r, p, q);
    NamedEndCopied(c, 0, r, q + 2, 0, true, spells);
    CopiedToken(c, 0, |c|, r, q + 2, 0);
    SameAfterSpace(r, q + 1, q + 2, spells);
    AddedIsWellFormed(c, r, p, q);
    assert FirstNamed(r, p, spells) == FirstNamed(r, q + 1, spells);
  }

  /** In the new text, the search finds the added constraint. */
  lemma {:induction false} FindsTheAdded(z: seq<Tok>, body: nat, p: nat, r: seq<Tok>, s: nat, spells: string -> bool)
    requires body <= p <= |z| && WellFormed(z, body, true) && Reaches(z, body, p) && TokenKind(z, p).RP?
    requires FirstNamed(z, body, spells) == None
    requires p <= |r| && Copied(z, 0, p, r, 0) && WellFormed(r, p, false)
    requires FirstNamed(r, p, spells) == Some(s) && s <= |r| && NamedType(r, s).CHECK?
    ensures Scan(r, body, 0, Named(spells)) == Found(s, NamedEnd(r, s))
  {
    StartStays(z, body, true, p, r);
    NoNameStays(z, body, true, p, r, spells);
    ScanFindsFirstNamed(r, body, true, 0, spells);
  }

  /** Where the added constraint and the white space after it end. */
  lemma {:induction false} SpaceAfterAdded(c: seq<Tok>, r: seq<Tok>, d: nat)
    requires c != [] && Copied(c, 0, |c|, r, d) && SkipSpace(c, NamedEnd(c, 0)) == |c| - 1
    requires c[|c| - 1].kind.RP?
    ensures SkipSpace(r, NamedEnd(c, 0) + d) == |c| - 1 + d < |r| && r[|c| - 1 + d].kind.RP?
    ensures NamedEnd(c, 0) < |c|
  {
    CopiedSpace(c, 0, |c|, r, d, NamedEnd(c, 0));
    CopiedAt(c, 0, |c|, r, d, |c| - 1);
  }

  lemma {:induction false} CopiedPrefix(z: seq<Tok>, p: nat, q: nat, r: seq<Tok>)
    requires Copied(z, 0, q, r, 0) && p <= q
    ensures Copied(z, 0, p, r, 0)
  {
    forall k | 0 <= k < p ensures z[k] == r[k + 0] { CopiedAt(z, 0, q, r, 0, k); }
    IsCopied(z, 0, p, r, 0);
  }

  lemma AddedIsWellFormed(c: seq<Tok>, r: seq<Tok>, p: nat, q: nat)
    requires Copied(c, 0, |c|, r, q + 2) && WellFormed(c, 0, true) && TokenKind(c, 0).CONSTRAINT?
    requires p < |r| && TokenKind(r, p).COMMA? && TokenEnd(r, p) == q + 1
    requires TokenKind(r, q + 1) == TokenKind(r, q + 2) && TokenEnd(r, q + 1) == TokenEnd(r, q + 2)
    ensures WellFormed(r, p, false)
  {
    CopiedForm(c, 0, r, q + 2, 0, true);
    assert WellFormed(r, q + 1, true);
  }

  /** Cutting out all of a definition up to the closing parenthesis at `m`. */
  lemma {:induction false} CutsBack(r: seq<Tok>, body: nat, target: Target, q: nat, e: nat, m: nat)
    requires BodyStart(r, 0) == Some(body) && Scan(r, body, 0, target) == Found(q + 1, e)
    requires q + 1 <= e <= |r| && r[q].kind.COMMA? && SkipSpace(r, e) == m < |r| && r[m].kind.RP?
    ensures Dropped(r, target) == Text(r[..q] + r[m..])
  {
  }

  lemma {:induction false} AddsAt(z: seq<Tok>, cons: seq<Tok>, body: nat, p: nat)
    requires BodyStart(z, 0) == Some(body) && body <= |z| && AddAt(z, body, -1) == Some(p) && p <= |z|
    requires SkipSpace(z, p) <= |z|
    ensures Added(z, cons, -1)
      == Some(z[..SkipSpace(z, p)] + [Tok(COMMA, ","), SPACE_TOK] + cons + z[SkipSpace(z, p)..])
  {
  }

  /** The search in the new text `r`, where `c` stands between the comma at `q` and the rest. */
  lemma DropsTheAdded(z: seq<Tok>, body: nat, p: nat, q: nat, c: seq<Tok>, r: seq<Tok>, spells: string -> bool)
    requires BodyStart(z, 0) == Some(body) && WellFormed(z, body, true)
    requires body <= p <= q < |z| && q == SkipSpace(z, p) && Reaches(z, body, p) && TokenKind(z, p).RP?
    requires FirstNamed(z, body, spells) == None && IsClosedCheck(c, spells)
    requires q + 2 < |r| && r[q].kind.COMMA? && r[q + 1].kind.SPACE? && r[q + 2].kind.CONSTRAINT?
    requires Copied(z, 0, q, r, 0) && Copied(c, 0, |c|, r, q + 2)
    ensures q + 1 + |c| < |r| && Dropped(r, Named(spells)) == Text(r[..q] + r[q + 1 + |c|..])
  {
    var e := NamedEnd(c, 0) + q + 2;
    assert SkipSpace(r, p) == q by { SkipsToComma(z, p, q, r); }
    assert WellFormed(r, p, false) && FirstNamed(r, p, spells) == Some(q + 1)
      && NamedEnd(r, q + 1) == e && NamedType(r, q + 1).CHECK? by {
      AddedIsSeen(c, r, p, q, spells);
    }
    assert Scan(r, body, 0, Named(spells)) == Found(q + 1, e) by {
      CopiedPrefix(z, p, q, r);
      FindsTheAdded(z, body, p, r, q + 1, spells);
    }
    assert BodyStart(r, 0) == Some(body) by { BodyStartCopied(z, q, r, 0); }
    SpaceAfterAdded(c, r, q + 2);
    CutsBack(r, body, Named(spells), q, e, q + 1 + |c|);
  }

  /** Adding a named CHECK constraint to a statement in which the duplicate check finds no such
      name, and dropping the name, gives back the statement, token for token. */
  lemma {:induction false} AddThenDrop(z: seq<Tok>, cons: seq<Tok>, spells: string -> bool)
    requires BodyStart(z, 0).Some? && WellFormed(z, BodyStart(z, 0).value, true)
    requires forall k :: 0 <= k < |z| && z[k].kind.RP? ==> z[k] == CLOSE
    requires !Finds(z, FindStart(z, 0), spells)
    requires IsNamedCheck(cons, spells)
    ensures Added(z, cons, -1).Some? && Dropped(Added(z, cons, -1).value, Named(spells)) == Text(z)
  {
    var body := BodyStart(z, 0).value;
    assert FirstNamed(z, body, spells) == None by {
      FindStartsAtBody(z, 0);
      NotFoundIsNotNamed(z, body, spells);
    }
    var p := AddsAtTheEnd(z, body, true);
    var q := SkipSpace(z, p);
    ClosesAt(z, p);
    AddsAt(z, cons, body, p);
    var r, c := AddedJoins(z, cons, q, spells);
    DropsTheAdded(z, body, p, q, c, r, spells);
  }

  lemma {:induction false} ClosesAt(z: seq<Tok>, p: nat)
    requires TokenKind(z, p).RP?
    ensures SkipSpace(z, p) < |z| && z[SkipSpace(z, p)].kind.RP?
  {
    TokenAfterSpace(z, p);
    SkipStops(z, p);
  }

  lemma {:induction false} SkipsToComma(z: seq<Tok>, p: nat, q: nat, r: seq<Tok>)
    requires Copied(z, 0, q, r, 0) && q == SkipSpace(z, p) && p <= q < |r| && r[q].kind.COMMA?
    ensures SkipSpace(r, p) == q
  {
    assert SkipSpace(r, q) == q;
    SkipsTo(r, p, q, q, z);
  }
}
