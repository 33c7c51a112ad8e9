/** The statement as a text: where its body starts, what a constraint name is, that the
    parentheses stay balanced, and that no two tokens run together. */
module ConstraintText {
  import opened Options
  import opened SqlTokens
  import opened SqlGroups
  import opened ConstraintScan
  import opened ConstraintUnits
  import opened ConstraintLaws
  import opened ConstraintEdits
  import opened ConstraintRoundtrip

  // ---- The body and the names ----

  /** The body starts behind the first opening parenthesis, if no ILLEGAL token comes before it. */
  lemma {:induction false} BodyIs(z: seq<Tok>, i: nat)
    requires i <= |z|
    ensures match BodyStart(z, i)
      case Some(b) =>
        && i < b <= |z| && z[b - 1].kind == LP
        && forall k :: i <= k < b - 1 ==> z[k].kind != LP && z[k].kind != ILLEGAL
      case None => forall k :: i <= k < |z| && z[k].kind == LP ==> !Legal(z, i, k)
    decreases |z| - i
  {
    if i < |z| && !z[i].kind.LP? && !z[i].kind.ILLEGAL? {
      BodyIs(z, i + 1);
      if BodyStart(z, i) == None {
        forall k | i <= k < |z| && z[k].kind == LP ensures !Legal(z, i, k) {
          assert !Legal(z, i + 1, k);
        }
      }
    } else if i < |z| && z[i].kind.ILLEGAL? {
      forall k | i <= k < |z| && z[k].kind == LP ensures !Legal(z, i, k) {
        assert i < k && z[i].kind == ILLEGAL;
      }
    }
  }

  /** The name of a constraint is the first token behind CONSTRAINT that is no white space. */
  lemma {:induction false} NamesIs(z: seq<Tok>, i: nat, spells: string -> bool)
    requires i <= |z|
    ensures var n := SkipSpace(z, TokenEnd(z, i));
      && n <= |z|
      && (n < |z| && z[n].kind != LP ==> (Names(z, i, spells) <==> z[n].kind != ILLEGAL && spells(z[n].text)))
      && (n == |z| ==> !Names(z, i, spells))
  {
    var n := SkipSpace(z, TokenEnd(z, i));
    TokenIs(z, TokenEnd(z, i));
    TokenAfterSpace(z, TokenEnd(z, i));
    if n < |z| && z[n].kind != LP {
      assert TokenEnd(z, n) == n + 1 && SkipSpace(z, n) == n;
      assert TextOf(z, n + 1, n + 1) == "";
      assert TextOf(z, n, n + 1) == z[n].text + "" == z[n].text;
    }
  }

  /** One character twice, or the two cases of one letter. */
  predicate SameLetter(c: char, d: char)
  {
    c == d || ('A' <= c <= 'Z' && d as int == c as int + 32) || ('A' <= d <= 'Z' && c as int == d as int + 32)
  }

  lemma LowerIs(c: char, d: char)
    ensures Lower(c) == Lower(d) <==> SameLetter(c, d)
  {
  }

  /** Names are the same if they are letter by letter: case does not count, everything else does. */
  lemma {:induction false} SameNameIs(a: string, b: string)
    ensures SameName(a, b) <==>
      if a == "" || b == "" then a == b else SameLetter(a[0], b[0]) && SameName(a[1..], b[1..])
  {
    if a != "" && b != "" {
      LowerIs(a[0], b[0]);
      if SameName(a[1..], b[1..]) && Lower(a[0]) == Lower(b[0]) {
        forall i | 0 <= i < |a| ensures Lower(a[i]) == Lower(b[i]) {
          if i > 0 { assert Lower(a[1..][i - 1]) == Lower(b[1..][i - 1]); }
        }
      }
    }
  }

  /** Steps lead from `i` to `p`; unlike those of the body they do not end at its parenthesis. */
  ghost predicate Visits(z: seq<Tok>, i: nat, p: nat)
    decreases |z| - i
  {
    i == p || (!TokenKind(z, i).ILLEGAL? && Visits(z, TokenEnd(z, i), p))
  }

  ghost predicate NamedAt(z: seq<Tok>, i: nat, p: nat, spells: string -> bool)
  {
    p <= |z| && Visits(z, i, p) && TokenKind(z, p).CONSTRAINT? && Names(z, p, spells)
  }

  /** The duplicate check answers yes exactly if one of the CONSTRAINT tokens that it steps over is
      followed by the name. */
  lemma {:induction false} FindsIff(z: seq<Tok>, i: nat, spells: string -> bool)
    requires i <= |z|
    ensures Finds(z, i, spells) <==> exists p :: NamedAt(z, i, p, spells)
    decreases |z| - i
  {
    var t, e := TokenKind(z, i), TokenEnd(z, i);
    if !t.ILLEGAL? {
      FindsIff(z, e, spells);
      if t.CONSTRAINT? { FindsAfterSpace(z, e, NameStart(z, i), spells); }
      if t.CONSTRAINT? && Names(z, i, spells) { assert NamedAt(z, i, i, spells); }
      if p :| NamedAt(z, e, p, spells) { assert NamedAt(z, i, p, spells); }
      if p :| NamedAt(z, i, p, spells) {
        if p != i { assert NamedAt(z, e, p, spells); }
      }
    }
  }

  // ---- Balance ----

  lemma {:induction false} DepthMoves(z: seq<Tok>, lo: nat, hi: nat, r: seq<Tok>, d: int)
    requires Copied(z, lo, hi, r, d) && lo <= hi
    ensures 0 <= lo + d && hi + d <= |r| && Depth(r, lo + d, hi + d) == Depth(z, lo, hi)
    decreases hi - lo
  {
    if lo < hi { DepthMoves(z, lo + 1, hi, r, d); }
  }

  lemma {:induction false} ReachesBalanced(z: seq<Tok>, i: nat, j: nat)
    requires i <= |z| && Reaches(z, i, j)
    ensures Depth(z, i, j) == 0
    decreases |z| - i
  {
    if i != j {
      StepIsBalanced(z, i);
      ReachesBalanced(z, TokenEnd(z, i), j);
      DepthAdds(z, i, TokenEnd(z, i), j);
    }
  }

  lemma {:induction false} FrontMoves(z: seq<Tok>, p: nat, mid: seq<Tok>, f: nat, r: seq<Tok>)
    requires IsJoin(z, p, mid, f, r)
    ensures p <= |z| && p <= |r| && Depth(r, 0, p) == Depth(z, 0, p)
  {
    DepthMoves(z, 0, p, r, 0);
  }

  lemma {:induction false} MiddleMoves(z: seq<Tok>, p: nat, mid: seq<Tok>, f: nat, r: seq<Tok>)
    requires IsJoin(z, p, mid, f, r)
    ensures p + |mid| <= |r| && Depth(r, p, p + |mid|) == Depth(mid, 0, |mid|)
  {
    DepthMoves(mid, 0, |mid|, r, p);
  }

  lemma {:induction false} BackMoves(z: seq<Tok>, p: nat, mid: seq<Tok>, f: nat, r: seq<Tok>, m: nat)
    requires IsJoin(z, p, mid, f, r) && m == p + |mid|
    ensures m <= |r| && f <= |z| && Depth(r, m, |r|) == Depth(z, f, |z|)
  {
    DepthMoves(z, f, |z|, r, |r| - |z|);
  }

  /** A text with `mid` instead of what is from `p` to `f`. */
  lemma {:induction false} JoinBalanced(z: seq<Tok>, p: nat, mid: seq<Tok>, f: nat, r: seq<Tok>)
    requires p <= f <= |z| && IsJoin(z, p, mid, f, r)
    ensures Depth(r, 0, |r|) == Depth(z, 0, |z|) - Depth(z, p, f) + Depth(mid, 0, |mid|)
  {
    FrontMoves(z, p, mid, f, r);
    MiddleMoves(z, p, mid, f, r);
    BackMoves(z, p, mid, f, r, p + |mid|);
    ThreeParts(z, p, f);
    ThreeParts(r, p, p + |mid|);
  }

  lemma {:induction false} ThreeParts(z: seq<Tok>, p: nat, f: nat)
    requires p <= f <= |z|
    ensures Depth(z, 0, |z|) == Depth(z, 0, p) + Depth(z, p, f) + Depth(z, f, |z|)
  {
    DepthAdds(z, 0, p, |z|);
    DepthAdds(z, p, f, |z|);
  }

  /** How the text is put together again: only white space goes besides the tokens from `s` to
      `e` and a comma in front of them, and a space comes in unless a comma or a parenthesis is
      next, so that no two tokens run together. */
  lemma CutIs(z: seq<Tok>, s: nat, e: nat) returns (p: nat, mid: seq<Tok>, f: nat)
    requires s <= e <= |z|
    ensures p <= s && (p < s ==> p == s - 1 && z[p].kind == COMMA)
    ensures e <= f <= |z| && forall k :: e <= k < f ==> z[k].kind == SPACE || z[k].kind == COMMENT
    ensures mid == [] || (|mid| == 1 && mid[0].kind == SPACE)
    ensures mid == [] ==> f < |z| && (z[f].kind == RP || z[f].kind == COMMA)
    ensures Cut(z, s, e) == z[..p] + mid + z[f..]
  {
    SpaceIs(z, e);
    f := SkipSpace(z, e);
    if KindAt(z, f).RP? || KindAt(z, f).COMMA? {
      p := if s > 0 && z[s - 1].kind.COMMA? then s - 1 else s;
      mid := [];
      assert z[..p] + [] + z[f..] == z[..p] + z[f..];
    } else {
      p, mid := s, [SPACE_TOK];
    }
  }

  /** Dropping a constraint leaves the parentheses of the statement balanced, or as they were. */
  lemma {:induction false} DropKeepsBalance(z: seq<Tok>, body: nat, target: Target)
    requires BodyStart(z, 0) == Some(body) && WellFormed(z, body, true) && Dropped(z, target).Text?
    ensures var r := Dropped(z, target).z;
      Depth(r, 0, |r|) == Depth(z, 0, |z|)
  {
    var f := Scan(z, body, 0, target);
    if f.Found? {
      FoundIsOneRun(z, body, true, 0, target);
      CutIsBalanced(z, f.start, f.end);
    }
  }

  lemma {:induction false} CutIsBalanced(z: seq<Tok>, s: nat, e: nat)
    requires s <= e <= |z| && Reaches(z, s, e)
    ensures var r := Cut(z, s, e);
      Depth(r, 0, |r|) == Depth(z, 0, |z|)
  {
    var p, mid, f := CutIs(z, s, e);
    Joined(z, p, mid, f, Cut(z, s, e));
    JoinBalanced(z, p, mid, f, Cut(z, s, e));
    ReachesBalanced(z, s, e);
    BlanksAreBalanced(z, e, f);
    DepthAdds(z, p, s, f);
    DepthAdds(z, s, e, f);
  }

  lemma ConcatAt(a: seq<Tok>, b: seq<Tok>)
    ensures forall k :: 0 <= k < |a| ==> a[k] == (a + b)[k + 0]
    ensures forall k :: 0 <= k < |b| ==> b[k] == (a + b)[k + |a|]
  {
  }

  lemma {:induction false} ConcatIsCopied(a: seq<Tok>, b: seq<Tok>, ab: seq<Tok>)
    requires |ab| == |a| + |b|
    requires forall k :: 0 <= k < |a| ==> a[k] == ab[k + 0]
    requires forall k :: 0 <= k < |b| ==> b[k] == ab[k + |a|]
    ensures Copied(a, 0, |a|, ab, 0) && Copied(b, 0, |b|, ab, |a|)
  {
    IsCopied(a, 0, |a|, ab, 0);
    IsCopied(b, 0, |b|, ab, |a|);
  }

  lemma {:induction false} DepthOfTwo(a: seq<Tok>, b: seq<Tok>, ab: seq<Tok>)
    requires |ab| == |a| + |b| && Copied(a, 0, |a|, ab, 0) && Copied(b, 0, |b|, ab, |a|)
    ensures Depth(ab, 0, |ab|) == Depth(a, 0, |a|) + Depth(b, 0, |b|)
  {
    assert Depth(ab, 0, |a|) == Depth(a, 0, |a|) by { DepthMoves(a, 0, |a|, ab, 0); }
    assert Depth(ab, |a|, |ab|) == Depth(b, 0, |b|) by { DepthMoves(b, 0, |b|, ab, |a|); }
    DepthAdds(ab, 0, |a|, |ab|);
  }

  /** How the text is put together when a constraint is added. */
  lemma AddIs(z: seq<Tok>, cons: seq<Tok>, iCol: int) returns (q: nat, sep: seq<Tok>)
    requires Added(z, cons, iCol).Some?
    ensures q <= |z| && Added(z, cons, iCol) == Some(z[..q] + (sep + cons) + z[q..])
    ensures |sep| <= 2 && forall k :: 0 <= k < |sep| ==> sep[k].kind == COMMA || sep[k].kind == SPACE
  {
    q := SkipSpace(z, AddAt(z, BodyStart(z, 0).value, iCol).value);
    sep := if iCol < 0 then [Tok(COMMA, ","), SPACE_TOK] else [SPACE_TOK];
    assert z[..q] + sep + cons + z[q..] == z[..q] + (sep + cons) + z[q..];
  }

  lemma {:induction false} SeparatorIsBalanced(sep: seq<Tok>)
    requires |sep| <= 2 && forall k :: 0 <= k < |sep| ==> sep[k].kind == COMMA || sep[k].kind == SPACE
    ensures Depth(sep, 0, |sep|) == 0
  {
    assert |sep| == 2 ==> Depth(sep, 1, 2) == 0;
  }

  /** Adding a constraint adds its parentheses. */
  lemma {:induction false} AddKeepsBalance(z: seq<Tok>, cons: seq<Tok>, iCol: int)
    requires Added(z, cons, iCol).Some?
    ensures var r := Added(z, cons, iCol).value;
      Depth(r, 0, |r|) == Depth(z, 0, |z|) + Depth(cons, 0, |cons|)
  {
    var q, sep := AddIs(z, cons, iCol);
    SeparatorIsBalanced(sep);
    ConcatAt(sep, cons);
    ConcatIsCopied(sep, cons, sep + cons);
    DepthOfTwo(sep, cons, sep + cons);
    InsertIsBalanced(z, q, sep + cons);
  }

  lemma {:induction false} InsertIsBalanced(z: seq<Tok>, q: nat, mid: seq<Tok>)
    requires q <= |z|
    ensures var r := z[..q] + mid + z[q..];
      Depth(r, 0, |r|) == Depth(z, 0, |z|) + Depth(mid, 0, |mid|)
  {
    var r := z[..q] + mid + z[q..];
    Joined(z, q, mid, q, r);
    JoinBalanced(z, q, mid, q, r);
  }
}
