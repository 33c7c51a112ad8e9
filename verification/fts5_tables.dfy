/** The tables that Lemon generated for the FTS5 query grammar (fts5parse.c) and the automaton
    they encode, as a plain matrix of actions and gotos. */
module Fts5Tables {
  import opened Options
  import opened LemonTables

  const OR := 1
  const AND := 2
  const NOT := 3
  const COLON := 5
  const MINUS := 6
  const LCP := 7
  const RCP := 8
  const STRING := 9
  const LP := 10
  const RP := 11
  const CARET := 12
  const COMMA := 13
  const PLUS := 14
  const STAR := 15

  const INPUT := 16
  const EXPR := 17
  const CNEARSET := 18
  const EXPRLIST := 19
  const COLSET := 20
  const COLSETLIST := 21
  const NEARSET := 22
  const NEARPHRASES := 23
  const PHRASE := 24
  const NEARDIST := 25
  const STAROPT := 26

  const ERROR := 80    // YY_ERROR_ACTION
  const ACCEPT := 81   // YY_ACCEPT_ACTION
  const REDUCE := 83   // YY_MIN_REDUCE
  const DEPTH := 100   // YYSTACKDEPTH

  /** `yy_action` */
  function YyAction(i: int): int {
    match i
    case 0 => 81 case 1 => 20 case 2 => 96 case 3 => 6 case 4 => 28 case 5 => 99 case 6 => 98 case 7 => 26
    case 8 => 26 case 9 => 18 case 10 => 96 case 11 => 6 case 12 => 28 case 13 => 17 case 14 => 98 case 15 => 56
    case 16 => 26 case 17 => 19 case 18 => 96 case 19 => 6 case 20 => 28 case 21 => 14 case 22 => 98 case 23 => 14
    case 24 => 26 case 25 => 31 case 26 => 92 case 27 => 96 case 28 => 6 case 29 => 28 case 30 => 108 case 31 => 98
    case 32 => 25 case 33 => 26 case 34 => 21 case 35 => 96 case 36 => 6 case 37 => 28 case 38 => 78 case 39 => 98
    case 40 => 58 case 41 => 26 case 42 => 29 case 43 => 96 case 44 => 6 case 45 => 28 case 46 => 107 case 47 => 98
    case 48 => 22 case 49 => 26 case 50 => 24 case 51 => 16 case 52 => 12 case 53 => 11 case 54 => 1 case 55 => 13
    case 56 => 13 case 57 => 24 case 58 => 16 case 59 => 23 case 60 => 11 case 61 => 33 case 62 => 34 case 63 => 13
    case 64 => 97 case 65 => 8 case 66 => 27 case 67 => 32 case 68 => 98 case 69 => 7 case 70 => 26 case 71 => 3
    case 72 => 4 case 73 => 5 case 74 => 3 case 75 => 4 case 76 => 5 case 77 => 3 case 78 => 83 case 79 => 4
    case 80 => 5 case 81 => 3 case 82 => 63 case 83 => 5 case 84 => 3 case 85 => 62 case 86 => 12 case 87 => 2
    case 88 => 86 case 89 => 13 case 90 => 9 case 91 => 30 case 92 => 10 case 93 => 10 case 94 => 54 case 95 => 57
    case 96 => 75 case 97 => 78 case 98 => 78 case 99 => 53 case 100 => 57 case 101 => 15 case 102 => 82 case 103 => 82
    case 104 => 71
    case _ => -1
  }

  /** `yy_lookahead` */
  function YyLookahead(i: int): int {
    match i
    case 0 => 16 case 1 => 17 case 2 => 18 case 3 => 19 case 4 => 20 case 5 => 22 case 6 => 22 case 7 => 24
    case 8 => 24 case 9 => 17 case 10 => 18 case 11 => 19 case 12 => 20 case 13 => 7 case 14 => 22 case 15 => 9
    case 16 => 24 case 17 => 17 case 18 => 18 case 19 => 19 case 20 => 20 case 21 => 9 case 22 => 22 case 23 => 9
    case 24 => 24 case 25 => 13 case 26 => 17 case 27 => 18 case 28 => 19 case 29 => 20 case 30 => 26 case 31 => 22
    case 32 => 24 case 33 => 24 case 34 => 17 case 35 => 18 case 36 => 19 case 37 => 20 case 38 => 15 case 39 => 22
    case 40 => 9 case 41 => 24 case 42 => 17 case 43 => 18 case 44 => 19 case 45 => 20 case 46 => 26 case 47 => 22
    case 48 => 21 case 49 => 24 case 50 => 6 case 51 => 7 case 52 => 9 case 53 => 9 case 54 => 10 case 55 => 12
    case 56 => 12 case 57 => 6 case 58 => 7 case 59 => 21 case 60 => 9 case 61 => 24 case 62 => 25 case 63 => 12
    case 64 => 18 case 65 => 5 case 66 => 20 case 67 => 14 case 68 => 22 case 69 => 5 case 70 => 24 case 71 => 3
    case 72 => 1 case 73 => 2 case 74 => 3 case 75 => 1 case 76 => 2 case 77 => 3 case 78 => 0 case 79 => 1
    case 80 => 2 case 81 => 3 case 82 => 11 case 83 => 2 case 84 => 3 case 85 => 11 case 86 => 9 case 87 => 10
    case 88 => 5 case 89 => 12 case 90 => 23 case 91 => 24 case 92 => 10 case 93 => 10 case 94 => 8 case 95 => 9
    case 96 => 9 case 97 => 15 case 98 => 15 case 99 => 8 case 100 => 9 case 101 => 9 case 102 => 27 case 103 => 27
    case 104 => 11 case 105 => 27 case 106 => 27 case 107 => 27 case 108 => 27 case 109 => 27
    case 110 => 27 case 111 => 27
    case 112 => 27 case 113 => 27 case 114 => 27 case 115 => 27 case 116 => 27 case 117 => 27
    case 118 => 27 case 119 => 27
    case 120 => 27
    case _ => -1
  }

  /** `yy_shift_ofst` */
  function YyShiftOfst(i: int): int {
    match i
    case 0 => 44 case 1 => 44 case 2 => 44 case 3 => 44 case 4 => 44 case 5 => 44 case 6 => 51 case 7 => 77
    case 8 => 43 case 9 => 12 case 10 => 14 case 11 => 83 case 12 => 82 case 13 => 14 case 14 => 23 case 15 => 23
    case 16 => 31 case 17 => 31 case 18 => 71 case 19 => 74 case 20 => 78 case 21 => 81 case 22 => 86 case 23 => 91
    case 24 => 6 case 25 => 53 case 26 => 53 case 27 => 60 case 28 => 64 case 29 => 68 case 30 => 53 case 31 => 87
    case 32 => 92 case 33 => 53 case 34 => 93
    case _ => -1
  }

  /** `yy_reduce_ofst` */
  function YyReduceOfst(i: int): int {
    match i
    case 0 => -16 case 1 => -8 case 2 => 0 case 3 => 9 case 4 => 17 case 5 => 25 case 6 => 46 case 7 => -17
    case 8 => -17 case 9 => 37 case 10 => 67 case 11 => 4 case 12 => 4 case 13 => 8 case 14 => 4 case 15 => 20
    case 16 => 27 case 17 => 38
    case _ => -1
  }

  /** `yy_default` */
  function YyDefault(i: int): int {
    match i
    case 0 => 80 case 1 => 80 case 2 => 80 case 3 => 80 case 4 => 80 case 5 => 80 case 6 => 95 case 7 => 80
    case 8 => 80 case 9 => 105 case 10 => 80 case 11 => 110 case 12 => 110 case 13 => 80 case 14 => 110 case 15 => 110
    case 16 => 80 case 17 => 80 case 18 => 80 case 19 => 80 case 20 => 80 case 21 => 91 case 22 => 80 case 23 => 80
    case 24 => 80 case 25 => 101 case 26 => 100 case 27 => 80 case 28 => 80 case 29 => 90 case 30 => 103 case 31 => 80
    case 32 => 80 case 33 => 104 case 34 => 80
    case _ => -1
  }

  /** `yyRuleInfoLhs` */
  function YyRuleInfoLhs(i: int): int {
    match i
    case 0 => 16 case 1 => 20 case 2 => 20 case 3 => 20 case 4 => 20 case 5 => 21 case 6 => 21 case 7 => 17
    case 8 => 17 case 9 => 17 case 10 => 17 case 11 => 17 case 12 => 17 case 13 => 19 case 14 => 19 case 15 => 18
    case 16 => 18 case 17 => 22 case 18 => 22 case 19 => 22 case 20 => 23 case 21 => 23 case 22 => 25 case 23 => 25
    case 24 => 24 case 25 => 24 case 26 => 26 case 27 => 26
    case _ => -1
  }

  /** `yyRuleInfoNRhs` */
  function YyRuleInfoNRhs(i: int): int {
    match i
    case 0 => -1 case 1 => -4 case 2 => -3 case 3 => -1 case 4 => -2 case 5 => -2 case 6 => -1 case 7 => -3
    case 8 => -3 case 9 => -3 case 10 => -5 case 11 => -3 case 12 => -1 case 13 => -1 case 14 => -2 case 15 => -1
    case 16 => -3 case 17 => -1 case 18 => -2 case 19 => -5 case 20 => -1 case 21 => -2 case 22 => 0 case 23 => -2
    case 24 => -4 case 25 => -2 case 26 => -1 case 27 => 0
    case _ => -1
  }

  function FTS5(): Tables {
    Tables(
      seq(105, i => YyAction(i)),
      seq(121, i => YyLookahead(i)),
      seq(35, i => YyShiftOfst(i)),
      seq(18, i => YyReduceOfst(i)),
      seq(35, i => YyDefault(i)),
      [], None,
      seq(28, i => YyRuleInfoLhs(i)),
      seq(28, i => YyRuleInfoNRhs(i)),
      16, 34, 52, 79, ERROR, ACCEPT, REDUCE, 27)
  }

  // ---------------------------------------------------------------- the automaton in plain form

  /** The action of state `s` on token `t`. */
  function Action(s: int, t: int): int {
    if 0 <= s <= 5 then
      if t == MINUS then 24 else if t == LCP then 16 else if t == STRING then 11 else if t == LP then 1
      else if t == CARET then 13 else 80
    else if s == 6 then
      if t == MINUS then 24 else if t == LCP then 16 else if t == STRING then 11 else if t == CARET then 13 else 95
    else if s == 7 then
      if t == STRING then 12 else if t == LP then 2 else if t == CARET then 13 else 80
    else if s == 8 then
      if t == STRING then 12 else if t == CARET then 13 else 80
    else if s == 9 then
      if t == STRING then 14 else if t == COMMA then 31 else 105
    else if s == 10 || s == 13 then
      if t == STRING then 14 else 80
    else if s == 11 then
      if t == COLON then 86 else if t == LP then 10 else if t == STAR then 78 else 110
    else if s == 12 then
      if t == LP then 10 else if t == STAR then 78 else 110
    else if s == 14 || s == 15 then
      if t == STAR then 78 else 110
    else if s == 16 || s == 17 then
      if t == STRING then 58 else 80
    else if s == 18 then
      if t == OR then 4 else if t == AND then 5 else if t == NOT then 3 else if t == RP then 63 else 80
    else if s == 19 then
      if t == OR then 4 else if t == AND then 5 else if t == NOT then 3 else if t == RP then 62 else 80
    else if s == 20 then
      if t == 0 then 83 else if t == OR then 4 else if t == AND then 5 else if t == NOT then 3 else 80
    else if s == 21 then
      if t == AND then 5 else if t == NOT then 3 else 91
    else if s == 22 then
      if t == RCP then 54 else if t == STRING then 57 else 80
    else if s == 23 then
      if t == RCP then 53 else if t == STRING then 57 else 80
    else if s == 24 then
      if t == LCP then 17 else if t == STRING then 56 else 80
    else if s == 25 then
      if t == PLUS then 32 else 101
    else if s == 26 then
      if t == PLUS then 32 else 100
    else if s == 27 then
      if t == COLON then 8 else 80
    else if s == 28 then
      if t == COLON then 7 else 80
    else if s == 29 then
      if t == NOT then 3 else 90
    else if s == 30 then
      if t == PLUS then 32 else 103
    else if s == 31 then
      if t == STRING then 75 else 80
    else if s == 32 then
      if t == STRING then 15 else 80
    else if s == 33 then
      if t == PLUS then 32 else 104
    else if s == 34 then
      if t == RP then 71 else 80
    else s
  }

  /** The goto of state `s` on nonterminal `n`, or -1. */
  function Goto(s: int, n: int): int {
    if s == 0 then
      if n == INPUT then 81 else if n == EXPR then 20 else if n == CNEARSET then 96
      else if n == EXPRLIST then 6 else if n == COLSET then 28 else if n == NEARSET then 98
      else if n == PHRASE then 26 else -1
    else if s == 1 then
      if n == EXPR then 18 else if n == CNEARSET then 96 else if n == EXPRLIST then 6
      else if n == COLSET then 28 else if n == NEARSET then 98 else if n == PHRASE then 26 else -1
    else if s == 2 then
      if n == EXPR then 19 else if n == CNEARSET then 96 else if n == EXPRLIST then 6
      else if n == COLSET then 28 else if n == NEARSET then 98 else if n == PHRASE then 26 else -1
    else if s == 3 then
      if n == EXPR then 92 else if n == CNEARSET then 96 else if n == EXPRLIST then 6
      else if n == COLSET then 28 else if n == NEARSET then 98 else if n == PHRASE then 26 else -1
    else if s == 4 then
      if n == EXPR then 21 else if n == CNEARSET then 96 else if n == EXPRLIST then 6
      else if n == COLSET then 28 else if n == NEARSET then 98 else if n == PHRASE then 26 else -1
    else if s == 5 then
      if n == EXPR then 29 else if n == CNEARSET then 96 else if n == EXPRLIST then 6
      else if n == COLSET then 28 else if n == NEARSET then 98 else if n == PHRASE then 26 else -1
    else if s == 6 then
      if n == CNEARSET then 97 else if n == COLSET then 27 else if n == NEARSET then 98
      else if n == PHRASE then 26 else -1
    else if s == 7 || s == 8 then
      if n == NEARSET then 99 else if n == PHRASE then 26 else -1
    else if s == 9 then
      if n == PHRASE then 33 else if n == NEARDIST then 34 else -1
    else if s == 10 then
      if n == NEARPHRASES then 9 else if n == PHRASE then 30 else -1
    else if s == 11 || s == 12 || s == 14 then
      if n == STAROPT then 108 else -1
    else if s == 13 then
      if n == PHRASE then 25 else -1
    else if s == 15 then
      if n == STAROPT then 107 else -1
    else if s == 16 then
      if n == COLSETLIST then 22 else -1
    else if s == 17 then
      if n == COLSETLIST then 23 else -1
    else -1
  }

  // ---------------------------------------------------------------- the packing of the actions

  /** The explicit entry of state `s` for token `t`: an action other than the default. */
  predicate Explicit(s: int, t: int) { 0 <= t < 16 && Action(s, t) != YyDefault(s) }

  function Row(s: int): map<int, int> {
    map t | 0 <= t < 16 && Explicit(s, t) :: Action(s, t)
  }

  /** The plain matrix that Lemon packed. */
  function Rows(): Matrix { seq(35, s => Row(s)) }

  /** The slot for the entry holds it, tagged with the token. */
  predicate InPlace(s: int, t: int) {
    var i := YyShiftOfst(s) + t;
    0 <= i < 105 && YyLookahead(i) == t && YyAction(i) == Action(s, t)
  }

  lemma EntriesOf0To8(s: int, t: int)
    requires 0 <= s <= 8 && Explicit(s, t)
    ensures InPlace(s, t)
  {
  }

  lemma EntriesOf9To17(s: int, t: int)
    requires 9 <= s <= 17 && Explicit(s, t)
    ensures InPlace(s, t)
  {
  }

  lemma EntriesOf18To26(s: int, t: int)
    requires 18 <= s <= 26 && Explicit(s, t)
    ensures InPlace(s, t)
  {
  }

  lemma EntriesOf27To34(s: int, t: int)
    requires 27 <= s <= 34 && Explicit(s, t)
    ensures InPlace(s, t)
  {
  }

  lemma EntriesAreInPlace(s: int, t: int)
    requires 0 <= s < 35 && Explicit(s, t)
    ensures InPlace(s, t)
  {
    if s <= 8 {
      EntriesOf0To8(s, t);
    } else if s <= 17 {
      EntriesOf9To17(s, t);
    } else if s <= 26 {
      EntriesOf18To26(s, t);
    } else {
      EntriesOf27To34(s, t);
    }
  }

  /** A state that uses slot `i`, when the slot is tagged with a terminal. */
  function Owner(i: int): int {
    match i
    case 13 => 24 case 15 => 24 case 21 => 9 case 23 => 10 case 25 => 9 case 38 => 14 case 40 => 16 case 50 => 0
    case 51 => 0 case 52 => 8 case 53 => 0 case 54 => 0 case 55 => 8 case 56 => 0 case 57 => 6 case 58 => 6
    case 60 => 6 case 63 => 6 case 65 => 27 case 67 => 25 case 69 => 28 case 71 => 29 case 72 => 18
    case 73 => 18 case 74 => 18 case 75 => 19 case 76 => 19 case 77 => 19 case 78 => 20 case 79 => 20
    case 80 => 20 case 81 => 20 case 82 => 18 case 83 => 21 case 84 => 21 case 85 => 19 case 86 => 7
    case 87 => 7 case 88 => 11 case 89 => 7 case 92 => 12 case 93 => 11 case 94 => 22 case 95 => 22
    case 96 => 31 case 97 => 12 case 98 => 11 case 99 => 23 case 100 => 23 case 101 => 32 case 104 => 34
    case _ => 0
  }

  lemma SlotsOf0To44(i: int)
    requires 0 <= i < 45 && 0 <= YyLookahead(i) < 16
    ensures 0 <= Owner(i) < 35 && YyShiftOfst(Owner(i)) + YyLookahead(i) == i && Explicit(Owner(i), YyLookahead(i))
  {
  }

  lemma SlotsOf45To64(i: int)
    requires 45 <= i < 65 && 0 <= YyLookahead(i) < 16
    ensures 0 <= Owner(i) < 35 && YyShiftOfst(Owner(i)) + YyLookahead(i) == i && Explicit(Owner(i), YyLookahead(i))
  {
  }

  lemma SlotsOf65To79(i: int)
    requires 65 <= i < 80 && 0 <= YyLookahead(i) < 16
    ensures 0 <= Owner(i) < 35 && YyShiftOfst(Owner(i)) + YyLookahead(i) == i && Explicit(Owner(i), YyLookahead(i))
  {
  }

  lemma SlotsOf80To120(i: int)
    requires 80 <= i < 121 && 0 <= YyLookahead(i) < 16
    ensures 0 <= Owner(i) < 35 && YyShiftOfst(Owner(i)) + YyLookahead(i) == i && Explicit(Owner(i), YyLookahead(i))
  {
  }

  /** The least state at a shift offset. */
  function StateAt(ofst: int): int {
    match ofst
    case 6 => 24 case 12 => 9 case 14 => 10 case 23 => 14 case 31 => 16 case 43 => 8 case 44 => 0 case 51 => 6
    case 53 => 25 case 60 => 27 case 64 => 28 case 68 => 29 case 71 => 18 case 74 => 19 case 77 => 7
    case 78 => 20 case 81 => 21 case 82 => 12 case 83 => 11 case 86 => 22 case 87 => 31 case 91 => 23
    case 92 => 32 case 93 => 34
    case _ => 0
  }

  lemma SharedOffset0To11(s: int, t: int)
    requires 0 <= s < 12
    ensures Explicit(s, t) <==> Explicit(StateAt(YyShiftOfst(s)), t)
  {
  }

  lemma SharedOffset12To23(s: int, t: int)
    requires 12 <= s < 24
    ensures Explicit(s, t) <==> Explicit(StateAt(YyShiftOfst(s)), t)
  {
  }

  lemma SharedOffset24To34(s: int, t: int)
    requires 24 <= s < 35
    ensures Explicit(s, t) <==> Explicit(StateAt(YyShiftOfst(s)), t)
  {
  }

  lemma RowsAreStored()
    ensures Stores(FTS5(), Rows())
  {
    var T, rows := FTS5(), Rows();
    forall s, t | 0 <= s < |rows| && t in rows[s] ensures IsTerminal(T, t) && StoredAt(T, s, t, rows[s][t]) {
      EntriesAreInPlace(s, t);
    }
    forall i | 0 <= i < |T.lookahead| && IsTerminal(T, T.lookahead[i]) ensures Owned(T, rows, i) {
      if i < 45 { SlotsOf0To44(i); } else if i < 65 { SlotsOf45To64(i); }
      else if i < 80 { SlotsOf65To79(i); } else { SlotsOf80To120(i); }
      assert OwnsSlot(T, rows, Owner(i), i);
    }
  }

  lemma OffsetsAreShared()
    ensures OffsetsSeparateRows(FTS5(), Rows())
  {
    var rows := Rows();
    forall s, s' | 0 <= s < 35 && 0 <= s' < 35 && YyShiftOfst(s) == YyShiftOfst(s')
      ensures rows[s].Keys == rows[s'].Keys
    {
      forall t ensures t in rows[s].Keys <==> t in rows[s'].Keys {
        SharedOffset(s, t);
        SharedOffset(s', t);
      }
    }
  }

  lemma SharedOffset(s: int, t: int)
    requires 0 <= s < 35
    ensures Explicit(s, t) <==> Explicit(StateAt(YyShiftOfst(s)), t)
  {
    if s < 12 { SharedOffset0To11(s, t); }
    else if s < 24 { SharedOffset12To23(s, t); } else { SharedOffset24To34(s, t); }
  }

  lemma OffsetsInRange(s: int)
    requires 0 <= s < 35
    ensures 0 <= YyShiftOfst(s) <= 105 && YyShiftOfst(s) + 16 <= 121
  {
  }

  lemma TablesAreSafe()
    ensures LookupSafe(FTS5())
  {
    forall s | 0 <= s < 35 ensures 0 <= YyShiftOfst(s) <= 105 && YyShiftOfst(s) + 16 <= 121 {
      OffsetsInRange(s);
    }
  }

  /** The packed tables encode the plain matrix: for every state, also a pending reduce, and
      every token the lookup ends without a failed assert and returns the plain action. */
  lemma ActionIs(s: int, t: int)
    requires 0 <= s && 0 <= t < 16
    ensures FindShiftAction(FTS5(), t, s) == Some(Action(s, t))
  {
    if s < 35 {
      RowsAreStored();
      OffsetsAreShared();
      TablesAreSafe();
      PackedLookupRefinesMatrix(FTS5(), Rows(), t, s);
      assert Rows()[s] == Row(s);
    }
  }

  lemma GotoOf0To1(s: int, n: int)
    requires 0 <= s <= 1 && 16 <= n < 27
    ensures FindReduceAction(FTS5(), s, n) == if Goto(s, n) >= 0 then Some(Goto(s, n)) else None
  {
    if s == 0 {
    }
  }

  lemma GotoOf2To3(s: int, n: int)
    requires 2 <= s <= 3 && 16 <= n < 27
    ensures FindReduceAction(FTS5(), s, n) == if Goto(s, n) >= 0 then Some(Goto(s, n)) else None
  {
    if s == 2 {
    }
  }

  lemma GotoOf4To5(s: int, n: int)
    requires 4 <= s <= 5 && 16 <= n < 27
    ensures FindReduceAction(FTS5(), s, n) == if Goto(s, n) >= 0 then Some(Goto(s, n)) else None
  {
    if s == 4 {
    }
  }

  lemma GotoOf6To8(s: int, n: int)
    requires 6 <= s <= 8 && 16 <= n < 27
    ensures FindReduceAction(FTS5(), s, n) == if Goto(s, n) >= 0 then Some(Goto(s, n)) else None
  {
    if s == 6 {
    } else if s == 7 {
    }
  }

  lemma GotoOf9To10(s: int, n: int)
    requires 9 <= s <= 10 && 16 <= n < 27
    ensures FindReduceAction(FTS5(), s, n) == if Goto(s, n) >= 0 then Some(Goto(s, n)) else None
  {
    if s == 9 {
    }
  }

  lemma GotoOf11To12(s: int, n: int)
    requires 11 <= s <= 12 && 16 <= n < 27
    ensures FindReduceAction(FTS5(), s, n) == if Goto(s, n) >= 0 then Some(Goto(s, n)) else None
  {
    if s == 11 {
    }
  }

  lemma GotoOf13To14(s: int, n: int)
    requires 13 <= s <= 14 && 16 <= n < 27
    ensures FindReduceAction(FTS5(), s, n) == if Goto(s, n) >= 0 then Some(Goto(s, n)) else None
  {
    if s == 13 {
    }
  }

  lemma GotoOf15To17(s: int, n: int)
    requires 15 <= s <= 17 && 16 <= n < 27
    ensures FindReduceAction(FTS5(), s, n) == if Goto(s, n) >= 0 then Some(Goto(s, n)) else None
  {
    if s == 15 {
    } else if s == 16 {
    }
  }

  /** The same for nonterminals: a hit exactly where the automaton has a goto. */
  lemma GotoIs(s: int, n: int)
    requires 0 <= s && 16 <= n < 27
    ensures FindReduceAction(FTS5(), s, n) == if Goto(s, n) >= 0 then Some(Goto(s, n)) else None
  {
    if s <= 1 {
      GotoOf0To1(s, n);
    } else if s <= 3 {
      GotoOf2To3(s, n);
    } else if s <= 5 {
      GotoOf4To5(s, n);
    } else if s <= 8 {
      GotoOf6To8(s, n);
    } else if s <= 10 {
      GotoOf9To10(s, n);
    } else if s <= 12 {
      GotoOf11To12(s, n);
    } else if s <= 14 {
      GotoOf13To14(s, n);
    } else if s <= 17 {
      GotoOf15To17(s, n);
    }
  }

  /** The symbol on which every entry in state `q` was pushed. */
  function Acc(q: int): int {
    if q == 4 then OR
    else if q == 5 then AND
    else if q == 3 then NOT
    else if q == 7 || q == 8 then COLON
    else if q == 24 then MINUS
    else if q == 16 || q == 17 then LCP
    else if q == 84 || q == 85 then RCP
    else if q == 11 || q == 12 || q == 14 || q == 15 || q == 87 || q == 88 || q == 89 || q == 106 then STRING
    else if q == 1 || q == 2 || q == 10 then LP
    else if q == 93 || q == 94 || q == 102 then RP
    else if q == 13 then CARET
    else if q == 31 then COMMA
    else if q == 32 then PLUS
    else if q == 109 then STAR
    else if q == 81 then INPUT
    else if q == 18 || q == 19 || q == 20 || q == 21 || q == 29 || q == 92 then EXPR
    else if q == 96 || q == 97 then CNEARSET
    else if q == 6 then EXPRLIST
    else if q == 27 || q == 28 then COLSET
    else if q == 22 || q == 23 then COLSETLIST
    else if q == 98 || q == 99 then NEARSET
    else if q == 9 then NEARPHRASES
    else if q == 25 || q == 26 || q == 30 || q == 33 then PHRASE
    else if q == 34 then NEARDIST
    else if q == 107 || q == 108 then STAROPT
    else -1
  }

  /** An entry in state `q` can stand directly above one in state `p`. */
  predicate Pred(q: int, p: int) {
    if q == 1 || q == 6 || q == 28 || q == 96 then 0 <= p <= 5
    else if q == 2 then p == 7
    else if q == 3 then p == 18 || p == 19 || p == 20 || p == 21 || p == 29
    else if q == 4 then 18 <= p <= 20
    else if q == 5 then 18 <= p <= 21
    else if q == 7 then p == 28
    else if q == 8 then p == 27
    else if q == 9 || q == 30 then p == 10
    else if q == 10 then p == 11 || p == 12
    else if q == 11 || q == 16 || q == 24 || q == 98 then 0 <= p <= 6
    else if q == 12 || q == 99 then p == 7 || p == 8
    else if q == 13 || q == 26 then 0 <= p <= 8
    else if q == 14 then p == 9 || p == 10 || p == 13
    else if q == 15 then p == 32
    else if q == 17 || q == 87 then p == 24
    else if q == 18 then p == 1
    else if q == 19 then p == 2
    else if q == 20 || q == 81 then p == 0
    else if q == 21 then p == 4
    else if q == 22 then p == 16
    else if q == 23 then p == 17
    else if q == 25 then p == 13
    else if q == 27 || q == 97 then p == 6
    else if q == 29 then p == 5
    else if q == 31 || q == 33 || q == 34 then p == 9
    else if q == 32 then p == 25 || p == 26 || p == 30 || p == 33
    else if q == 84 then p == 23
    else if q == 85 then p == 22
    else if q == 88 then p == 22 || p == 23
    else if q == 89 then p == 16 || p == 17
    else if q == 92 then p == 3
    else if q == 93 then p == 19
    else if q == 94 then p == 18
    else if q == 102 then p == 34
    else if q == 106 then p == 31
    else if q == 107 then p == 15
    else if q == 108 then p == 11 || p == 12 || p == 14
    else if q == 109 then p == 11 || p == 12 || p == 14 || p == 15
    else false
  }

  /** The kernel items: state `q` has recognised the first `i` symbols of rule `r`. */
  predicate Item(q: int, r: nat, i: nat)
    requires 0 < i
  {
    match r
    case 0 => i == 1 && q == 20
    case 1 => (i == 1 && q == 24) || (i == 2 && q == 17) || (i == 3 && q == 23) || (i == 4 && q == 84)
    case 2 => (i == 1 && q == 16) || (i == 2 && q == 22) || (i == 3 && q == 85)
    case 3 => i == 1 && q == 11
    case 4 => (i == 1 && q == 24) || (i == 2 && q == 87)
    case 5 => (i == 1 && (q == 22 || q == 23)) || (i == 2 && q == 88)
    case 6 => i == 1 && q == 89
    case 7 => (i == 1 && (q == 18 || q == 19 || q == 20 || q == 21 || q == 29 || q == 92)) || (i == 2 && q == 5)
      || (i == 3 && q == 29)
    case 8 => (i == 1 && (q == 18 || q == 19 || q == 20 || q == 21 || q == 29 || q == 92)) || (i == 2 && q == 4)
      || (i == 3 && q == 21)
    case 9 => (i == 1 && (q == 18 || q == 19 || q == 20 || q == 21 || q == 29 || q == 92)) || (i == 2 && q == 3)
      || (i == 3 && q == 92)
    case 10 => (i == 1 && q == 28) || (i == 2 && q == 7) || (i == 3 && q == 2) || (i == 4 && q == 19)
      || (i == 5 && q == 93)
    case 11 => (i == 1 && q == 1) || (i == 2 && q == 18) || (i == 3 && q == 94)
    case 12 => i == 1 && q == 6
    case 13 => i == 1 && q == 96
    case 14 => (i == 1 && q == 6) || (i == 2 && q == 97)
    case 15 => i == 1 && q == 98
    case 16 => (i == 1 && (q == 27 || q == 28)) || (i == 2 && (q == 7 || q == 8)) || (i == 3 && q == 99)
    case 17 => i == 1 && q == 26
    case 18 => (i == 1 && q == 13) || (i == 2 && q == 25)
    case 19 => (i == 1 && (q == 11 || q == 12)) || (i == 2 && q == 10) || (i == 3 && q == 9)
      || (i == 4 && q == 34) || (i == 5 && q == 102)
    case 20 => i == 1 && q == 30
    case 21 => (i == 1 && q == 9) || (i == 2 && q == 33)
    case 23 => (i == 1 && q == 31) || (i == 2 && q == 106)
    case 24 => (i == 1 && (q == 25 || q == 26 || q == 30 || q == 33)) || (i == 2 && q == 32)
      || (i == 3 && q == 15) || (i == 4 && q == 107)
    case 25 => (i == 1 && (q == 11 || q == 12 || q == 14)) || (i == 2 && q == 108)
    case 26 => i == 1 && q == 109
    case _ => false
  }
}
