/** SQL text as the sequence of its tokens, and the scanner `getConstraintToken` of alter.c,
    which steps over one token, or over one whole parenthesised group.  A position is a token
    index; the end of the text reads as an ILLEGAL token of length zero. */
module SqlTokens {

  datatype Kind =
    | SPACE | COMMENT | LP | RP | COMMA | ILLEGAL
    | CONSTRAINT | PRIMARY | NOT | NULL | UNIQUE | CHECK | DEFAULT | COLLATE
    | REFERENCES | FOREIGN | AS | GENERATED
    | OTHER  // a name, a literal, an operator or any other keyword

  datatype Tok = Tok(kind: Kind, text: string)

  function KindAt(z: seq<Tok>, i: nat): Kind { if i < |z| then z[i].kind else ILLEGAL }

  function After(z: seq<Tok>, i: nat): nat { if i < |z| then i + 1 else i }

  predicate Blank(k: Kind) { k.SPACE? || k.COMMENT? }

  /** Past the white space and the comments at `i`. */
  function SkipSpace(z: seq<Tok>, i: nat): (j: nat)
    ensures i <= j && (i <= |z| ==> j <= |z|)
    decreases |z| - i
  {
    if Blank(KindAt(z, i)) then SkipSpace(z, i + 1) else i
  }

  function Nesting(t: Kind, nest: nat): nat
    requires 0 < nest
  {
    if t.LP? then nest + 1 else if t.RP? then nest - 1 else nest
  }

  lemma {:induction false} SkipStops(z: seq<Tok>, i: nat)
    ensures !Blank(KindAt(z, SkipSpace(z, i)))
    decreases |z| - i
  {
    if Blank(KindAt(z, i)) { SkipStops(z, i + 1); }
  }

  /** Inside `nest` open parentheses at `i`: past the one that closes the outermost, or past
      the first ILLEGAL token. */
  function GroupEnd(z: seq<Tok>, i: nat, nest: nat): (j: nat)
    ensures i <= j && (i <= |z| ==> j <= |z|)
    decreases |z| - i
  {
    var t := KindAt(z, i);
    if nest == 0 then i
    else if t.ILLEGAL? then After(z, i)
    else GroupEnd(z, i + 1, Nesting(t, nest))
  }

  predicate Closes(z: seq<Tok>, i: nat, nest: nat)
    decreases |z| - i
  {
    var t := KindAt(z, i);
    nest == 0 || (!t.ILLEGAL? && Closes(z, i + 1, Nesting(t, nest)))
  }

  /** The kind that `getConstraintToken` reports: a closed group is an LP. */
  function TokenKind(z: seq<Tok>, i: nat): (t: Kind)
    ensures !t.ILLEGAL? ==> i < |z|
    decreases |z| - i
  {
    var t := KindAt(z, i);
    if Blank(t) then TokenKind(z, i + 1)
    else if t.LP? && !Closes(z, i + 1, 1) then ILLEGAL else t
  }

  function TokenEnd(z: seq<Tok>, i: nat): (e: nat)
    ensures i <= e && (i <= |z| ==> e <= |z|)
    ensures i < |z| ==> i < e
    decreases |z| - i
  {
    var t := KindAt(z, i);
    if Blank(t) then TokenEnd(z, i + 1)
    else if t.LP? then GroupEnd(z, i + 1, 1) else After(z, i)
  }

  lemma {:induction false} TokenAfterSpace(z: seq<Tok>, i: nat)
    ensures TokenKind(z, i) == TokenKind(z, SkipSpace(z, i)) && TokenEnd(z, i) == TokenEnd(z, SkipSpace(z, i))
    decreases |z| - i
  {
    if Blank(KindAt(z, i)) { TokenAfterSpace(z, i + 1); }
  }

  /** `getConstraintToken`. */
  method GetConstraintToken(z: seq<Tok>, i: nat) returns (iOff: nat, t: Kind)
    requires i <= |z|
    ensures iOff == TokenEnd(z, i) && t == TokenKind(z, i)
    ensures iOff <= |z|
  {
    iOff := i;
    t := SPACE;
    ghost var at := i;
    while t.SPACE? || t.COMMENT?
      invariant at <= iOff <= |z| && SkipSpace(z, at) == SkipSpace(z, i)
      invariant if Blank(t) then at == iOff else at == SkipSpace(z, i) && t == KindAt(z, at) && iOff == After(z, at)
      decreases |z| - at, Blank(t)
    {
      at := iOff;
      t := KindAt(z, iOff);
      iOff := After(z, iOff);
      if Blank(t) {
        at := iOff;
      }
    }
    TokenAfterSpace(z, i);
    if t.LP? {
      var nNest := 1;
      while nNest > 0
        invariant 0 <= nNest && iOff <= |z| && !t.ILLEGAL? && (nNest == 0 ==> t.LP?)
        invariant GroupEnd(z, iOff, nNest) == TokenEnd(z, i)
        invariant Closes(z, iOff, nNest) == Closes(z, at + 1, 1)
        decreases |z| - iOff, nNest
      {
        t := KindAt(z, iOff);
        iOff := After(z, iOff);
        if t.LP? {
          nNest := nNest + 1;
        } else if t.RP? {
          t := LP;
          nNest := nNest - 1;
        } else if t.ILLEGAL? {
          break;
        }
      }
    }
  }

  /** `getWhitespace`. */
  method GetWhitespace(z: seq<Tok>, i: nat) returns (iOff: nat)
    requires i <= |z|
    ensures iOff == SkipSpace(z, i)
  {
    iOff := i;
    while true
      invariant iOff <= |z| && SkipSpace(z, iOff) == SkipSpace(z, i)
      decreases |z| - iOff
    {
      var t := KindAt(z, iOff);
      if !t.SPACE? && !t.COMMENT? {
        break;
      }
      iOff := iOff + 1;
    }
  }
}
