/** The packed action tables of a Lemon-generated parser and the two lookups over them
    (lempar.c, `yy_find_shift_action` and `yy_find_reduce_action`). */
module LemonTables {
  import opened Options

  /** The tables and limits that Lemon writes into a parser.  `fallback` is empty when the
      grammar has no %fallback, `wildcard` is None when it has no %wildcard. */
  datatype Tables = Tables(
    action: seq<int>,
    lookahead: seq<int>,
    shiftOfst: seq<int>,
    reduceOfst: seq<int>,
    default: seq<int>,
    fallback: seq<int>,
    wildcard: Option<int>,
    ruleLhs: seq<int>,
    ruleNRhs: seq<int>,
    nToken: int,
    maxShift: int,
    minShiftReduce: int,
    maxShiftReduce: int,
    errorAction: int,
    acceptAction: int,
    minReduce: int,
    noCode: int)

  /** What one round of the lookup loop does. */
  datatype Round = Return(action: int) | Retry(token: int) | AssertFails

  /** The asserts at the head of a round. */
  predicate RoundReady(T: Tables, token: int, state: int) {
    && 0 <= state < |T.shiftOfst|
    && 0 <= T.shiftOfst[state] <= |T.action|
    && T.shiftOfst[state] + T.nToken <= |T.lookahead|
    && token != T.noCode
    && 0 <= token < T.nToken
  }

  function DefaultRound(T: Tables, state: int): Round {
    if 0 <= state < |T.default| then Return(T.default[state]) else AssertFails
  }

  /** The tail of a round, after a miss with no fallback: the wildcard's action or the default. */
  function WildcardRound(T: Tables, token: int, state: int): Round
    requires RoundReady(T, token, state)
  {
    match T.wildcard
    case None => DefaultRound(T, state)
    case Some(w) =>
      var j := T.shiftOfst[state] + w;
      if !(0 <= j < |T.lookahead|) then AssertFails
      else if T.lookahead[j] == w && token > 0 then
        if j < |T.action| then Return(T.action[j]) else AssertFails
      else DefaultRound(T, state)
  }

  function ShiftRound(T: Tables, token: int, state: int): Round {
    if !RoundReady(T, token, state) then AssertFails
    else
      var i := T.shiftOfst[state] + token;
      if T.lookahead[i] == token then
        if i < |T.action| then Return(T.action[i]) else AssertFails
      else if T.fallback != [] then
        if !(token < |T.fallback|) then AssertFails
        else
          var f := T.fallback[token];
          if f == 0 then WildcardRound(T, token, state)
          else if 0 <= f < |T.fallback| && T.fallback[f] == 0 then Retry(f)
          else AssertFails
      else WildcardRound(T, token, state)
  }

  /** The action for a terminal, or None where one of the asserts of the lookup fails. */
  function FindShiftAction(T: Tables, token: int, state: int): Option<int> {
    if state > T.maxShift then Some(state)
    else
      match ShiftRound(T, token, state)
      case Return(a) => Some(a)
      case AssertFails => None
      case Retry(f) =>
        match ShiftRound(T, f, state)
        case Return(a) => Some(a)
        case _ => None
  }

  /** The lookup loop as it is run.  It needs at most two rounds because a fallback token has
      no fallback of its own. */
  method RunShiftLookup(T: Tables, token: int, state: int) returns (action: int, rounds: nat)
    requires FindShiftAction(T, token, state).Some?
    ensures FindShiftAction(T, token, state) == Some(action)
    ensures rounds <= 2
    ensures rounds == 2 ==> T.fallback != [] && 0 <= token < |T.fallback| && T.fallback[token] != 0
  {
    rounds := 0;
    if state > T.maxShift {
      return state, 0;
    }
    var la := token;
    while true
      invariant rounds <= 1
      invariant rounds == 0 ==> la == token
      invariant rounds == 1 ==> ShiftRound(T, token, state) == Retry(la)
      decreases 2 - rounds
    {
      rounds := rounds + 1;
      var i := T.shiftOfst[state] + la;
      if T.lookahead[i] == la {
        return T.action[i], rounds;
      }
      if T.fallback != [] && T.fallback[la] != 0 {
        la := T.fallback[la];
        continue;
      }
      if T.wildcard.Some? {
        var j := i - la + T.wildcard.value;
        if T.lookahead[j] == T.wildcard.value && la > 0 {
          return T.action[j], rounds;
        }
      }
      return T.default[state], rounds;
    }
  }

  /** The goto for a nonterminal.  Without an error symbol a miss is a failed assert. */
  function FindReduceAction(T: Tables, state: int, symbol: int): Option<int> {
    if 0 <= state < |T.reduceOfst| && symbol != T.noCode then
      var i := T.reduceOfst[state] + symbol;
      if 0 <= i < |T.action| && i < |T.lookahead| && T.lookahead[i] == symbol then Some(T.action[i]) else None
    else None
  }

  // ---------------------------------------------------------------- packing

  /** One row a state: the explicit actions of the plain matrix that was packed. */
  type Matrix = seq<map<int, int>>

  /** The slot that state `s` uses for token `t` is tagged with `t`. */
  ghost predicate Hit(T: Tables, s: int, t: int) {
    && 0 <= s < |T.shiftOfst|
    && 0 <= T.shiftOfst[s] + t < |T.lookahead|
    && T.lookahead[T.shiftOfst[s] + t] == t
  }

  ghost predicate StoredAt(T: Tables, s: int, t: int, action: int) {
    && Hit(T, s, t)
    && T.shiftOfst[s] + t < |T.action|
    && T.action[T.shiftOfst[s] + t] == action
  }

  ghost predicate OwnsSlot(T: Tables, rows: Matrix, s: int, i: int) {
    && 0 <= s < |rows| && s < |T.shiftOfst| && 0 <= i < |T.lookahead|
    && T.lookahead[i] in rows[s]
    && T.shiftOfst[s] + T.lookahead[i] == i
  }

  ghost predicate Owned(T: Tables, rows: Matrix, i: int) {
    exists s :: OwnsSlot(T, rows, s, i)
  }

  predicate IsTerminal(T: Tables, t: int) { 0 <= t < T.nToken }

  /** The packed array stores the rows: every explicit entry sits at offset + token, tagged
      with its token, and every slot tagged with a terminal was put there by some row.  The
      other slots hold gotos, which share the array. */
  ghost predicate Stores(T: Tables, rows: Matrix) {
    && |rows| == |T.shiftOfst|
    && (forall s, t {:trigger t in rows[s]} :: 0 <= s < |rows| && t in rows[s] ==>
          IsTerminal(T, t) && StoredAt(T, s, t, rows[s][t]))
    && (forall i {:trigger Owned(T, rows, i)} ::
          0 <= i < |T.lookahead| && IsTerminal(T, T.lookahead[i]) ==> Owned(T, rows, i))
  }

  /** Two states placed at the same offset have explicit entries for the same tokens. */
  ghost predicate OffsetsSeparateRows(T: Tables, rows: Matrix)
    requires |rows| == |T.shiftOfst|
  {
    forall s, s' :: 0 <= s < |rows| && 0 <= s' < |rows| && T.shiftOfst[s] == T.shiftOfst[s']
      ==> rows[s].Keys == rows[s'].Keys
  }

  /** A slot's tag tells rows apart: a terminal hits exactly in the rows that have it. */
  ghost predicate HitsAreExact(T: Tables, rows: Matrix)
    requires |rows| == |T.shiftOfst|
  {
    forall s, t {:trigger Hit(T, s, t)} :: 0 <= s < |rows| && IsTerminal(T, t) ==> (Hit(T, s, t) <==> t in rows[s])
  }

  /** The token tag is enough to detect every collision exactly when no two different rows
      share an offset. */
  lemma TagsDetectCollisionsIff(T: Tables, rows: Matrix)
    requires Stores(T, rows)
    ensures HitsAreExact(T, rows) <==> OffsetsSeparateRows(T, rows)
  {
    if OffsetsSeparateRows(T, rows) {
      forall s, t | 0 <= s < |rows| && IsTerminal(T, t) ensures Hit(T, s, t) <==> t in rows[s] {
        if Hit(T, s, t) {
          assert Owned(T, rows, T.shiftOfst[s] + t);
          var owner :| OwnsSlot(T, rows, owner, T.shiftOfst[s] + t);
          assert rows[owner].Keys == rows[s].Keys;
        }
      }
    }
    if HitsAreExact(T, rows) {
      forall s, s' | 0 <= s < |rows| && 0 <= s' < |rows| && T.shiftOfst[s] == T.shiftOfst[s']
        ensures rows[s].Keys == rows[s'].Keys
      {
        forall t ensures t in rows[s].Keys <==> t in rows[s'].Keys {
          if IsTerminal(T, t) { assert Hit(T, s, t) <==> Hit(T, s', t); }
        }
      }
    }
  }

  /** The tables satisfy every assert of the lookup, for every token and state. */
  ghost predicate LookupSafe(T: Tables) {
    && |T.shiftOfst| == T.maxShift + 1 && |T.default| == |T.shiftOfst|
    && !(0 <= T.noCode < T.nToken)
    && (forall s {:trigger T.shiftOfst[s]} :: 0 <= s < |T.shiftOfst| ==>
          0 <= T.shiftOfst[s] <= |T.action| && T.shiftOfst[s] + T.nToken <= |T.lookahead|)
    && (T.fallback != [] ==> |T.fallback| == T.nToken)
    && (forall t :: 0 <= t < |T.fallback| ==>
          0 <= T.fallback[t] < |T.fallback| && T.fallback[T.fallback[t]] == 0)
    && (T.wildcard.Some? ==> 0 <= T.wildcard.value < T.nToken)
  }

  /** The plain matrix semantics: the token's own action, else its fallback token's, else the
      wildcard's (never for end of input), else the state's default. */
  function MatrixAction(T: Tables, rows: Matrix, token: int, state: int): int
    requires 0 <= state < |rows| && state < |T.default|
    requires 0 <= token && (T.fallback != [] ==> token < |T.fallback|)
  {
    var fb := if T.fallback == [] then 0 else T.fallback[token];
    if token in rows[state] then rows[state][token]
    else if fb != 0 && fb in rows[state] then rows[state][fb]
    else if T.wildcard.Some? && token > 0 && T.wildcard.value in rows[state] then rows[state][T.wildcard.value]
    else T.default[state]
  }

  /** The packed lookup computes the plain matrix semantics for every state and token.  The
      only thing asked of token 0 is that end of input has no fallback. */
  lemma PackedLookupRefinesMatrix(T: Tables, rows: Matrix, token: int, state: int)
    requires LookupSafe(T) && Stores(T, rows) && OffsetsSeparateRows(T, rows)
    requires T.fallback != [] ==> T.fallback[0] == 0
    requires 0 <= state <= T.maxShift && 0 <= token < T.nToken
    ensures FindShiftAction(T, token, state) == Some(MatrixAction(T, rows, token, state))
  {
    TagsDetectCollisionsIff(T, rows);
    assert Hit(T, state, token) <==> token in rows[state];
    assert T.wildcard.Some? ==> (Hit(T, state, T.wildcard.value) <==> T.wildcard.value in rows[state]);
    if T.fallback != [] && T.fallback[token] != 0 {
      assert Hit(T, state, T.fallback[token]) <==> T.fallback[token] in rows[state];
    }
  }
}
