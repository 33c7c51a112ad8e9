/** What `getConstraintToken` steps over, in terms of the tokens themselves: white space, and then
    one token or one balanced group. */
module SqlGroups {
  import opened SqlTokens

  function Parenthesis(t: Tok): int { if t.kind.LP? then 1 else if t.kind.RP? then -1 else 0 }

  /** How many more opening than closing parentheses there are from `lo` to `hi`. */
  function Depth(z: seq<Tok>, lo: nat, hi: nat): int
    requires hi <= |z|
    decreases hi - lo
  {
    if lo >= hi then 0
    else Parenthesis(z[lo]) + Depth(z, lo + 1, hi)
  }

  predicate Legal(z: seq<Tok>, lo: nat, hi: nat)
    requires hi <= |z|
  {
    forall k :: lo <= k < hi ==> z[k].kind != ILLEGAL
  }

  lemma {:induction false} DepthAdds(z: seq<Tok>, lo: nat, mid: nat, hi: nat)
    requires lo <= mid <= hi <= |z|
    ensures Depth(z, lo, hi) == Depth(z, lo, mid) + Depth(z, mid, hi)
    decreases mid - lo
  {
    if lo < mid { DepthAdds(z, lo + 1, mid, hi); }
  }

  /** From `lo` to `hi` the tokens form one group in `nest` open parentheses: all of them are
      closed at `hi`, and not before. */
  ghost predicate ClosesFirstAt(z: seq<Tok>, lo: nat, hi: nat, nest: nat)
  {
    && lo <= hi <= |z| && Legal(z, lo, hi) && nest + Depth(z, lo, hi) == 0
    && forall k {:trigger Depth(z, lo, k)} :: lo <= k < hi ==> nest + Depth(z, lo, k) > 0
  }

  /** They are closed nowhere before the end of the text or an ILLEGAL token. */
  ghost predicate NeverCloses(z: seq<Tok>, lo: nat, nest: nat)
  {
    forall k {:trigger Depth(z, lo, k)} :: lo <= k <= |z| && Legal(z, lo, k) ==> nest + Depth(z, lo, k) > 0
  }

  lemma {:induction false} GroupIs(z: seq<Tok>, i: nat, nest: nat)
    requires i <= |z|
    ensures Closes(z, i, nest) ==> ClosesFirstAt(z, i, GroupEnd(z, i, nest), nest)
    ensures !Closes(z, i, nest) ==> NeverCloses(z, i, nest)
    decreases |z| - i
  {
    if nest > 0 && i < |z| && !z[i].kind.ILLEGAL? {
      var n := Nesting(z[i].kind, nest);
      GroupIs(z, i + 1, n);
      forall k | i < k <= |z| ensures nest + Depth(z, i, k) == n + Depth(z, i + 1, k) {}
      forall k | i < k <= |z| ensures Legal(z, i, k) <==> Legal(z, i + 1, k) {}
    }
  }

  lemma {:induction false} SpaceIs(z: seq<Tok>, i: nat)
    requires i <= |z|
    ensures var a := SkipSpace(z, i);
      && i <= a <= |z| && (a < |z| ==> z[a].kind != SPACE && z[a].kind != COMMENT)
      && forall k :: i <= k < a ==> z[k].kind == SPACE || z[k].kind == COMMENT
    decreases |z| - i
  {
    if Blank(KindAt(z, i)) { SpaceIs(z, i + 1); }
  }

  /** The token that is reported is the first one that is no white space.  If it is an opening
      parenthesis, the step ends behind the closing one that matches it; ILLEGAL is reported for
      it exactly if there is none, up to the first ILLEGAL token. */
  lemma {:induction false} TokenIs(z: seq<Tok>, i: nat)
    requires i <= |z|
    ensures var a, t, e := SkipSpace(z, i), TokenKind(z, i), TokenEnd(z, i);
      && i <= a <= |z| && (forall k :: i <= k < a ==> z[k].kind == SPACE || z[k].kind == COMMENT)
      && if a == |z| then t == ILLEGAL && e == |z|
         else if z[a].kind != LP then t == z[a].kind && e == a + 1 && t != SPACE && t != COMMENT
         else if t == LP then ClosesFirstAt(z, a + 1, e, 1)
         else t == ILLEGAL && NeverCloses(z, a + 1, 1)
  {
    SpaceIs(z, i);
    TokenAfterSpace(z, i);
    var a := SkipSpace(z, i);
    if a < |z| { GroupIs(z, a + 1, 1); }
  }

  /** Over one step the parentheses are balanced. */
  lemma {:induction false} StepIsBalanced(z: seq<Tok>, i: nat)
    requires i <= |z| && !TokenKind(z, i).ILLEGAL? && !TokenKind(z, i).RP?
    ensures Depth(z, i, TokenEnd(z, i)) == 0
  {
    TokenIs(z, i);
    var a := SkipSpace(z, i);
    BlanksAreBalanced(z, i, a);
    DepthAdds(z, i, a, TokenEnd(z, i));
  }

  lemma {:induction false} BlanksAreBalanced(z: seq<Tok>, i: nat, a: nat)
    requires i <= a <= |z| && forall k :: i <= k < a ==> z[k].kind == SPACE || z[k].kind == COMMENT
    ensures Depth(z, i, a) == 0
    decreases a - i
  {
    if i < a { BlanksAreBalanced(z, i + 1, a); }
  }
}
