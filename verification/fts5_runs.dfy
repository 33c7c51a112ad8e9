/** Whole runs of the FTS5 parser (fts5parse.c, `sqlite3Fts5Parser`): on every sequence of
    tokens and for every stack capacity no assert of the driver fails, every call ends, the
    number of reductions is linear in the input, and acceptance means derivability. */
module Fts5Runs {
  import opened Options
  import opened LemonTables
  import opened LemonDriver
  import opened Fts5Tables
  import opened Fts5Grammar
  import opened Fts5Automaton
  import opened Fts5Soundness

  // ---------------------------------------------------------------- the driver on these tables

  lemma RuleTables(rule: nat)
    requires rule < 28
    ensures |FTS5().ruleNRhs| == 28 && |FTS5().ruleLhs| == 28
    ensures -FTS5().ruleNRhs[rule] == |Rhs(rule)| && FTS5().ruleLhs[rule] == Lhs(rule)
  {
  }

  /** The configuration after a reduction, read off the grammar. */
  function Reduced(c: Config<Minor>, rule: nat): Config<Minor>
    requires |Rhs(rule)| < |c.stack|
  {
    Config(ReducedStack(c.stack, rule), Max(c.peak, |c.stack| - |Rhs(rule)| + 1), c.status)
  }

  lemma GotoFound(stack: Stack, rule: nat)
    requires Path(stack) && rule < 28 && Handle(stack, rule) && ReducedIn(rule, stack[|stack| - 1].state)
    ensures var p := stack[|stack| - 1 - |Rhs(rule)|].state;
            FindReduceAction(FTS5(), p, Lhs(rule)) == Some(Goto(p, Lhs(rule))) && GotoExists(p, rule)
  {
    BaseInRange(stack, rule);
    GotoAgrees(stack[|stack| - 1 - |Rhs(rule)|].state, rule);
    GotoIs(stack[|stack| - 1 - |Rhs(rule)|].state, Lhs(rule));
  }

  lemma ActionOfRule(rule: nat, v: seq<Minor>)
    ensures QueryParser().act(rule, v) == Act(rule, v)
  {
  }

  lemma ReduceIs(c: Config<Minor>, rule: nat)
    requires Path(c.stack) && rule < 28 && Handle(c.stack, rule) && ReducedIn(rule, c.stack[|c.stack| - 1].state)
    ensures Reduce(QueryParser(), c, rule) == Reduced(c, rule)
  {
    var k := |Rhs(rule)|;
    var n := |c.stack| - k;
    RuleTables(rule);
    GotoFound(c.stack, rule);
    ReduceAs(QueryParser(), c, rule, k, Lhs(rule), Goto(c.stack[n - 1].state, Lhs(rule)));
    ActionOfRule(rule, Minors(c.stack[n..]));
  }

  lemma StepOnReduce(cap: Capacity, s: ParseState, rule: nat)
    requires !Halted(s) && Path(s.c.stack) && rule < 28 && Handle(s.c.stack, rule)
    requires ReducedIn(rule, s.c.stack[|s.c.stack| - 1].state)
    ensures StepOn(QueryParser(), cap, s, REDUCE + rule)
         == s.(c := if Rhs(rule) == [] && !Fits(cap, |s.c.stack| + 1) then Overflow(s.c) else Reduced(s.c, rule))
  {
    RuleTables(rule);
    ReduceIs(s.c, rule);
  }

  lemma NextActionIs(s: ParseState)
    requires !Halted(s) && Path(s.c.stack) && Tokens(s.input)
    ensures var q := s.c.stack[|s.c.stack| - 1].state; 0 <= q <= 34 || q == ACCEPT || REDUCE < q < REDUCE + 28
    ensures NextAction(QueryParser(), s) == Some(Action(s.c.stack[|s.c.stack| - 1].state, s.input[0].major))
  {
    var n := |s.c.stack| - 1;
    if s.c.stack[n].state != 0 {
      Below(s.c.stack, n);
      StatesAre(s.c.stack[n].state, s.c.stack[n - 1].state);
    }
    ActionIs(s.c.stack[n].state, s.input[0].major);
  }

  // ---------------------------------------------------------------- termination measure

  /** What an entry is worth: more than all that can be reduced from it. */
  function Weight(symbol: int): nat {
    if symbol < INPUT then 8
    else if symbol == INPUT || symbol == NEARDIST || symbol == STAROPT then 1
    else if symbol == EXPR then 2
    else if symbol == EXPRLIST then 3
    else if symbol == CNEARSET then 4
    else if symbol == PHRASE then 8
    else 5
  }

  /** The epsilon rules 22 and 27 are paid for by the symbol below them, once. */
  function Bonus(symbol: int): nat {
    if symbol == STRING || symbol == NEARPHRASES then 2 else 0
  }

  function Weights(symbols: seq<int>): nat {
    if symbols == [] then 0 else Weights(symbols[..|symbols| - 1]) + Weight(symbols[|symbols| - 1])
  }

  function Potential(stack: Stack): nat {
    if stack == [] then 0
    else Weights(Majors(stack[1..])) + (if |stack| > 1 then Bonus(stack[|stack| - 1].major) else 0)
  }

  /** An upper bound on the turns left. */
  function Measure(s: ParseState): nat {
    Potential(s.c.stack) + 11 * |s.input|
  }

  lemma {:induction false} WeightsAppend(a: seq<int>, b: seq<int>)
    ensures Weights(a + b) == Weights(a) + Weights(b)
  {
    if b == [] {
      assert a + b == a;
    } else {
      var n := |b| - 1;
      WeightsAppend(a, b[..n]);
      assert (a + b)[..|a + b| - 1] == a + b[..n];
    }
  }

  lemma PotentialPush(stack: Stack, e: Entry<Minor>)
    requires stack != []
    ensures Potential(stack + [e]) == Weights(Majors(stack[1..])) + Weight(e.major) + Bonus(e.major)
  {
    assert (stack + [e])[1..] == stack[1..] + [e];
    var xs := Majors((stack + [e])[1..]);
    assert xs[..|xs| - 1] == Majors(stack[1..]);
  }

  lemma PotentialSplit(stack: Stack, k: nat)
    requires k < |stack|
    ensures Weights(Majors(stack[1..])) == Weights(Majors(stack[..|stack| - k][1..]))
      + Weights(Majors(stack[|stack| - k..]))
  {
    var base, top := stack[..|stack| - k][1..], stack[|stack| - k..];
    assert stack[1..] == base + top;
    assert Majors(base + top) == Majors(base) + Majors(top);
    WeightsAppend(Majors(base), Majors(top));
  }

  lemma {:induction false} WeightsAtLeast(xs: seq<int>)
    requires xs != []
    ensures Weights(xs) >= Weight(xs[0]) + (if |xs| > 1 then Weight(xs[|xs| - 1]) else 0)
  {
    if |xs| > 1 {
      WeightsAtLeast(xs[..|xs| - 1]);
    }
  }

  /** Every rule's left-hand side is worth less than its right-hand side, and an epsilon rule's
      less than the bonus of the symbol it is reduced above. */
  lemma RuleLoses(rule: nat, q: int)
    requires rule < 28 && ReducedIn(rule, q)
    ensures Weights(Rhs(rule)) + Bonus(Acc(q)) > Weight(Lhs(rule)) + Bonus(Lhs(rule))
  {
    if Rhs(rule) != [] {
      WeightsAtLeast(Rhs(rule));
    }
  }

  // ---------------------------------------------------------------- one turn

  /** A reduction lowers the potential. */
  lemma ReduceLowers(stack: Stack, rule: nat)
    requires Path(stack) && rule < 28 && Handle(stack, rule) && ReducedIn(rule, stack[|stack| - 1].state)
    ensures Potential(ReducedStack(stack, rule)) < Potential(stack)
  {
    var k := |Rhs(rule)|;
    PotentialPush(stack[..|stack| - k], ReducedStack(stack, rule)[|stack| - k]);
    PotentialSplit(stack, k);
    var n := |stack| - 1;
    NotStart(rule, stack[n].state);
    Below(stack, n);
    RuleLoses(rule, stack[n].state);
  }

  lemma NotStart(rule: nat, q: int)
    requires ReducedIn(rule, q)
    ensures q != 0
  {
  }

  lemma ShiftRaises(stack: Stack, e: Entry<Minor>)
    requires stack != [] && e.major < INPUT
    ensures Potential(stack + [e]) <= Potential(stack) + 10
  {
    PotentialPush(stack, e);
  }

  /** The situation, the derivations of what has been shifted, and the bookkeeping. */
  ghost predicate Sane(s: ParseState, forest: seq<Tree>, consumed: seq<Token>) {
    && s.c.status.Running?
    && Sound(s.c.stack, forest, s.input, consumed)
    && Tokens(s.input)
    && NoEnd(consumed)
  }

  /** End of input, token 0, is not among them. */
  ghost predicate NoEnd(tokens: seq<Token>) {
    forall i :: 0 <= i < |tokens| ==> tokens[i].major != 0
  }

  /** The start symbol's tree, its yield and its value, at the moment of acceptance. */
  ghost predicate AcceptedBy(t: Tree, consumed: seq<Token>, value: Minor) {
    Derivation(t) && Precedence(t) && Root(t) == INPUT && Yield(t) == consumed && Value(t) == value
  }

  /** One turn of the driver from a sane situation. */
  ghost predicate GoodTurn(cap: Capacity, s: ParseState, s': ParseState, forest': seq<Tree>, consumed: seq<Token>,
                           consumed': seq<Token>) {
    match s'.c.status
    case Running =>
      && Sane(s', forest', consumed') && consumed' + s'.input == consumed + s.input
      && Measure(s') < Measure(s)
      && (if s'.input == s.input then Potential(s'.c.stack) < Potential(s.c.stack)
          else Potential(s'.c.stack) <= Potential(s.c.stack) + 10)
    case Accepted(v) =>
      && |forest'| == 1 && AcceptedBy(forest'[0], consumed, v)
      && s.input != [] && s.input[0].major == 0 && s'.input == s.input && |s'.c.stack| == 1
    case SyntaxError(t) => s.input != [] && t == s.input[0] && s'.input == s.input && s'.c.stack == s.c.stack
    case Overflowed => s.c.stack != [] && s'.c.stack == s.c.stack[..1] && !Fits(cap, |s.c.stack| + 1)
      && s'.input == s.input
    case Stuck => false
  }

  lemma ShiftTurn(cap: Capacity, s: ParseState, forest: seq<Tree>, consumed: seq<Token>, action: int)
    returns (forest': seq<Tree>, consumed': seq<Token>)
    requires !Halted(s) && Sane(s, forest, consumed)
    requires action == Action(s.c.stack[|s.c.stack| - 1].state, s.input[0].major) <= 79
    ensures GoodTurn(cap, s, StepOn(QueryParser(), cap, s, action), forest', consumed, consumed')
    ensures forest' == forest + [Leaf(s.input[0])]
  {
    forest', consumed' := forest + [Leaf(s.input[0])], consumed + [s.input[0]];
    EndNotShifted(s.c.stack[|s.c.stack| - 1].state);
    StateInRange(s.c.stack, action, s.input[0].major);
    ShiftSound(s.c.stack, forest, s.input, consumed, action);
    ShiftRaises(s.c.stack, Entry(ShiftedState(FTS5(), action), s.input[0].major, Lift(s.input[0])));
    assert consumed + s.input == consumed + ([s.input[0]] + s.input[1..]);
  }

  lemma ReductionIsGood(cap: Capacity, s: ParseState, forest: seq<Tree>, consumed: seq<Token>, rule: nat)
    requires !Halted(s) && Sane(s, forest, consumed)
    requires Action(s.c.stack[|s.c.stack| - 1].state, s.input[0].major) == REDUCE + rule
    ensures rule < 28 && ReducedIn(rule, s.c.stack[|s.c.stack| - 1].state) && Handle(s.c.stack, rule)
    ensures GoodTurn(cap, s, s.(c := Reduced(s.c, rule)), ReducedForest(forest, rule), consumed, consumed)
  {
    ReduceSound(s.c.stack, forest, s.input, consumed, rule);
    ReduceLowers(s.c.stack, rule);
  }

  lemma ReduceTurn(cap: Capacity, s: ParseState, forest: seq<Tree>, consumed: seq<Token>, action: int)
    returns (forest': seq<Tree>)
    requires !Halted(s) && Sane(s, forest, consumed)
    requires action == Action(s.c.stack[|s.c.stack| - 1].state, s.input[0].major) >= REDUCE
    ensures GoodTurn(cap, s, StepOn(QueryParser(), cap, s, action), forest', consumed, consumed)
  {
    var rule: nat := action - REDUCE;
    ReductionIsGood(cap, s, forest, consumed, rule);
    StepOnReduce(cap, s, rule);
    forest' := ReducedForest(forest, rule);
  }

  /** The accept state sits directly above the bottom entry. */
  lemma AcceptHolds(stack: Stack, la: int)
    requires Path(stack) && 0 <= la < INPUT && Action(stack[|stack| - 1].state, la) == ACCEPT
    ensures |stack| == 2
  {
    var n := |stack| - 1;
    AcceptState(stack[n].state, la);
    Below(stack, n);
    AboveStart(stack[n - 1].state);
    if n > 1 {
      assert LinkAt(stack, n - 1);
      NotZero(stack[n - 1].state, stack[n - 2].state);
    }
  }

  /** At the accept action the one tree left derives all that was consumed. */
  lemma AcceptTurn(cap: Capacity, s: ParseState, forest: seq<Tree>, consumed: seq<Token>)
    requires !Halted(s) && Sane(s, forest, consumed)
    requires Action(s.c.stack[|s.c.stack| - 1].state, s.input[0].major) == ACCEPT
    ensures GoodTurn(cap, s, StepOn(QueryParser(), cap, s, ACCEPT), forest, consumed, consumed)
  {
    var n := |s.c.stack| - 1;
    AcceptState(s.c.stack[n].state, s.input[0].major);
    Below(s.c.stack, n);
    assert n == 1 by { AcceptHolds(s.c.stack, s.input[0].major); }
    assert TreeAt(s.c.stack, forest, n);
    YieldOfOne(forest);
    assert AcceptedBy(forest[0], consumed, s.c.stack[n].minor);
  }

  lemma {:induction false} YieldOfOne(forest: seq<Tree>)
    requires |forest| == 1
    ensures Yields(forest) == Yield(forest[0])
  {
    YieldsPush([], forest[0]);
    assert [] + [forest[0]] == forest;
  }

  lemma AcceptState(q: int, la: int)
    requires 0 <= la < INPUT && Action(q, la) == ACCEPT
    ensures q == ACCEPT
  {
  }

  lemma AboveStart(p: int)
    requires Pred(ACCEPT, p)
    ensures p == 0
  {
  }

  lemma NotZero(q: int, p: int)
    requires Pred(q, p)
    ensures q != 0
  {
  }

  /** Every turn from a sane situation is good. */
  lemma Turn(cap: Capacity, s: ParseState, forest: seq<Tree>, consumed: seq<Token>)
    returns (forest': seq<Tree>, consumed': seq<Token>)
    requires !Halted(s) && Sane(s, forest, consumed)
    ensures GoodTurn(cap, s, Step(QueryParser(), cap, s), forest', consumed, consumed')
  {
    NextActionIs(s);
    var q := s.c.stack[|s.c.stack| - 1].state;
    var action := Action(q, s.input[0].major);
    consumed', forest' := consumed, forest;
    if action <= 79 {
      forest', consumed' := ShiftTurn(cap, s, forest, consumed, action);
    } else if action >= REDUCE {
      forest' := ReduceTurn(cap, s, forest, consumed, action);
    } else if action == ACCEPT {
      AcceptTurn(cap, s, forest, consumed);
    } else {
      ErrorAction(q, s.input[0].major);
    }
  }

  lemma ErrorAction(q: int, la: int)
    requires 0 <= q && 0 <= la < INPUT && 79 < Action(q, la) < REDUCE && Action(q, la) != ACCEPT
    requires q <= 34 || q == ACCEPT || REDUCE < q
    ensures Action(q, la) == ERROR
  {
    ActionsAre(q, la);
  }

  lemma EndNotShifted(q: int)
    ensures 0 <= q <= 34 ==> Action(q, 0) > 79
  {
  }

  // ---------------------------------------------------------------- whole runs

  /** How a run ends that started with `tokens` still to come or already consumed. */
  ghost predicate GoodEnd(cap: Capacity, tokens: seq<Token>, e: ParseState, forest: seq<Tree>, consumed: seq<Token>) {
    match e.c.status
    case Running => e.input == [] && Sane(e, forest, consumed) && consumed == tokens
    case Accepted(v) =>
      && |forest| == 1 && AcceptedBy(forest[0], consumed, v) && NoEnd(consumed)
      && e.input != [] && e.input[0].major == 0 && consumed + e.input == tokens
    case SyntaxError(t) => e.input != [] && t == e.input[0] && consumed + e.input == tokens
    case Overflowed => cap.Some? && |e.c.stack| == 1
    case Stuck => false
  }

  /** A turn after which the driver does not go on ends the run well. */
  lemma LastTurn(cap: Capacity, s: ParseState, s': ParseState, forest: seq<Tree>, consumed: seq<Token>,
                 consumed': seq<Token>)
    requires s.input != [] && NoEnd(consumed) && !s'.c.status.Running?
    requires GoodTurn(cap, s, s', forest, consumed, consumed')
    ensures GoodEnd(cap, consumed + s.input, s', forest, consumed)
  {
  }

  ghost predicate Ongoing(tokens: seq<Token>, s: ParseState) {
    exists forest, consumed :: Sane(s, forest, consumed) && consumed + s.input == tokens
  }

  ghost predicate Ended(cap: Capacity, tokens: seq<Token>, s: ParseState) {
    exists forest, consumed :: GoodEnd(cap, tokens, s, forest, consumed)
  }

  lemma OngoingTurn(cap: Capacity, tokens: seq<Token>, s: ParseState)
    requires Ongoing(tokens, s) && !Halted(s)
    ensures var s' := Step(QueryParser(), cap, s);
            && 0 < Measure(s)
            && if s'.c.status.Running? then Ongoing(tokens, s') && Measure(s') < Measure(s)
               else Ended(cap, tokens, s')
  {
    var forest, consumed :| Sane(s, forest, consumed) && consumed + s.input == tokens;
    var forest', consumed' := Turn(cap, s, forest, consumed);
    var s' := Step(QueryParser(), cap, s);
    if !s'.c.status.Running? {
      LastTurn(cap, s, s', forest', consumed, consumed');
    }
  }

  lemma OngoingStopped(cap: Capacity, tokens: seq<Token>, s: ParseState)
    requires Ongoing(tokens, s) && Halted(s)
    ensures Ended(cap, tokens, s)
  {
    var forest, consumed :| Sane(s, forest, consumed) && consumed + s.input == tokens;
    assert GoodEnd(cap, tokens, s, forest, consumed);
  }

  /** From a sane situation the driver stops within `Measure` turns, and well. */
  lemma {:induction false} RunEndsWell(cap: Capacity, tokens: seq<Token>, s: ParseState)
    requires Ongoing(tokens, s)
    ensures Halted(Iter(QueryParser(), cap, s, Measure(s)))
    ensures Ended(cap, tokens, Iter(QueryParser(), cap, s, Measure(s)))
  {
    forall x: ParseState | Ongoing(tokens, x) && !Halted(x)
      ensures var y := Step(QueryParser(), cap, x);
              && 0 < Measure(x)
              && if y.c.status.Running? then Ongoing(tokens, y) && Measure(y) < Measure(x)
                 else Ended(cap, tokens, y)
    {
      OngoingTurn(cap, tokens, x);
    }
    forall x: ParseState | Ongoing(tokens, x) && Halted(x) ensures Ended(cap, tokens, x) {
      OngoingStopped(cap, tokens, x);
    }
    RunUntil(QueryParser(), cap, s, Measure(s), x => Ongoing(tokens, x), x => Measure(x), x => Ended(cap, tokens, x));
  }

  lemma StartIsSane(tokens: seq<Token>)
    requires Tokens(tokens)
    ensures Ongoing(tokens, Situation(Initial(QueryParser()), tokens))
    ensures Measure(Situation(Initial(QueryParser()), tokens)) == 11 * |tokens|
  {
    var s := Situation(Initial(QueryParser()), tokens);
    assert s.c.stack[1..] == [];
    assert Sane(s, [], []) && [] + tokens == tokens;
  }

  /** On every token sequence and with every capacity the parser stops, after at most eleven
      turns a token, and none of the driver's asserts has failed. */
  lemma {:induction false} AlwaysEnds(cap: Capacity, tokens: seq<Token>)
    requires Tokens(tokens)
    ensures Halted(Iter(QueryParser(), cap, Situation(Initial(QueryParser()), tokens), 11 * |tokens|))
    ensures Halts(QueryParser(), cap, Initial(QueryParser()), tokens)
    ensures var c := Exec(QueryParser(), cap, Initial(QueryParser()), tokens);
            !c.status.Stuck? && c.stack != [] && (cap.None? ==> !c.status.Overflowed?)
  {
    var s := Situation(Initial(QueryParser()), tokens);
    StartIsSane(tokens);
    RunEndsWell(cap, tokens, s);
    ExecIs(QueryParser(), cap, s.c, tokens, Measure(s));
    var forest, consumed :| GoodEnd(cap, tokens, Iter(QueryParser(), cap, s, Measure(s)), forest, consumed);
    BottomStays(QueryParser(), cap, s, Measure(s));
  }

  /** Soundness.  Fed a query and end of input, the parser decides; if it accepts, the query
      has a derivation from `input` that respects the precedences, and the value handed over
      is the value of that derivation. */
  lemma AcceptanceIsSound(cap: Capacity, query: seq<Token>, end: Token)
    requires Tokens(query) && NoEnd(query) && end.major == 0
    ensures Halts(QueryParser(), cap, Initial(QueryParser()), query + [end])
    ensures var status := Exec(QueryParser(), cap, Initial(QueryParser()), query + [end]).status;
            && (status.Accepted? || status.SyntaxError? || status.Overflowed?)
            && (status.Accepted? ==> exists t :: AcceptedBy(t, query, status.value))
  {
    var tokens := query + [end];
    var s := Situation(Initial(QueryParser()), tokens);
    StartIsSane(tokens);
    RunEndsWell(cap, tokens, s);
    ExecIs(QueryParser(), cap, s.c, tokens, Measure(s));
    var e := Iter(QueryParser(), cap, s, Measure(s));
    var forest: seq<Tree>, consumed: seq<Token> :| GoodEnd(cap, tokens, e, forest, consumed);
    assert tokens[|query|] == end;
    match e.c.status {
      case Running =>
        assert false;
      case Accepted(v) =>
        OneEnd(query, end, consumed, e.input);
        assert AcceptedBy(forest[0], query, v);
      case _ =>
    }
  }

  lemma OneEnd(query: seq<Token>, end: Token, consumed: seq<Token>, rest: seq<Token>)
    requires NoEnd(query) && NoEnd(consumed) && end.major == 0
    requires rest != [] && rest[0].major == 0 && consumed + rest == query + [end]
    ensures consumed == query
  {
    assert (query + [end])[|consumed|] == rest[0];
    assert |consumed| >= |query|;
    assert consumed == (query + [end])[..|consumed|];
  }

  /** Linear work: a parse performs at most ten reductions for every token it is given. */
  lemma {:induction false} ReductionsAreLinear(cap: Capacity, tokens: seq<Token>, n: nat)
    requires Tokens(tokens)
    ensures TurnsThatReduce(QueryParser(), cap, Situation(Initial(QueryParser()), tokens), n) <= 10 * |tokens|
  {
    var s := Situation(Initial(QueryParser()), tokens);
    StartIsSane(tokens);
    forall x: ParseState | Ongoing(tokens, x) && !Halted(x) && Step(QueryParser(), cap, x).c.status.Running?
      ensures var y := Step(QueryParser(), cap, x);
              Ongoing(tokens, y) && Credit(y) <= Credit(x) && (y.input == x.input ==> Credit(y) < Credit(x))
    {
      OngoingCredit(cap, tokens, x);
    }
    AmortisedReductions(QueryParser(), cap, s, n, x => Ongoing(tokens, x), Credit);
  }

  /** The reductions that the stack and the tokens to come can pay for. */
  function Credit(s: ParseState): nat {
    Potential(s.c.stack) + 10 * |s.input|
  }

  lemma OngoingCredit(cap: Capacity, tokens: seq<Token>, s: ParseState)
    requires Ongoing(tokens, s) && !Halted(s) && Step(QueryParser(), cap, s).c.status.Running?
    ensures var s' := Step(QueryParser(), cap, s);
            Ongoing(tokens, s') && Credit(s') <= Credit(s) && (s'.input == s.input ==> Credit(s') < Credit(s))
  {
    var forest, consumed :| Sane(s, forest, consumed) && consumed + s.input == tokens;
    var forest', consumed' := Turn(cap, s, forest, consumed);
    InputShrinks(QueryParser(), cap, s);
  }

  lemma {:induction false} ValueIsTyped(t: Tree)
    requires Derivation(t)
    ensures Typed(Root(t), Value(t))
    decreases t, 1
  {
    if t.Branch? {
      ValuesAreTyped(t.kids);
      ActIsTyped(t.rule, Values(t.kids));
    }
  }

  lemma {:induction false} ValuesAreTyped(ts: seq<Tree>)
    requires Derivations(ts)
    ensures AllTyped(Roots(ts), Values(ts))
    decreases ts, 0
  {
    if ts != [] {
      ValueIsTyped(ts[0]);
      ValuesAreTyped(ts[1..]);
      assert Roots(ts) == [Root(ts[0])] + Roots(ts[1..]);
    }
  }

  lemma OngoingIsTyped(tokens: seq<Token>, s: ParseState, i: nat)
    requires Ongoing(tokens, s) && 1 <= i < |s.c.stack|
    ensures Typed(s.c.stack[i].major, s.c.stack[i].minor)
  {
    var forest, consumed :| Sane(s, forest, consumed) && consumed + s.input == tokens;
    assert TreeAt(s.c.stack, forest, i);
    ValueIsTyped(forest[i - 1]);
  }

  /** However far a run has gone, `Ongoing` holds until it stops. */
  lemma {:induction false} RunIsOngoing(cap: Capacity, tokens: seq<Token>, s: ParseState, n: nat)
    requires Ongoing(tokens, s)
    requires Iter(QueryParser(), cap, s, n).c.status.Running?
    ensures Ongoing(tokens, Iter(QueryParser(), cap, s, n))
  {
    forall x: ParseState | Ongoing(tokens, x) && !Halted(x) && Step(QueryParser(), cap, x).c.status.Running?
      ensures Ongoing(tokens, Step(QueryParser(), cap, x))
    {
      OngoingTurn(cap, tokens, x);
    }
    KeptByRun(QueryParser(), cap, s, n, x => Ongoing(tokens, x));
  }

  /** Typing: however far a parse has gone, every stack slot holds the union member, and a value
      of the shape, that its grammar symbol requires. */
  lemma {:induction false} SlotsAreTyped(cap: Capacity, tokens: seq<Token>, n: nat, i: nat)
    requires Tokens(tokens)
    ensures var c := Iter(QueryParser(), cap, Situation(Initial(QueryParser()), tokens), n).c;
            c.status.Running? && 1 <= i < |c.stack| ==> Typed(c.stack[i].major, c.stack[i].minor)
  {
    var s := Situation(Initial(QueryParser()), tokens);
    StartIsSane(tokens);
    var e := Iter(QueryParser(), cap, s, n);
    if e.c.status.Running? && 1 <= i < |e.c.stack| {
      RunIsOngoing(cap, tokens, s, n);
      OngoingIsTyped(tokens, e, i);
    }
  }

  /** The asserts of one turn, written out: there is an action, and it is a shift, a reduction, the
      error or the accept action; a reduction has its right-hand side above the bottom entry and
      finds a goto that is neither a shift-reduce nor the error action; and at acceptance one entry
      stands above the bottom. */
  ghost predicate AssertsHoldAt(stack: Stack, token: Token)
    requires stack != []
  {
    var action := FindShiftAction(FTS5(), token.major, stack[|stack| - 1].state);
    action.Some? && ActionHolds(stack, action.value)
  }

  ghost predicate ActionHolds(stack: Stack, action: int)
  {
    && (0 <= action <= 79 || action == ERROR || action == ACCEPT || REDUCE <= action < REDUCE + 28)
    && (action == ACCEPT ==> |stack| == 2)
    && (action >= REDUCE ==>
          var size := -YyRuleInfoNRhs(action - REDUCE);
          && 0 <= size < |stack|
          && GotoHolds(FindReduceAction(FTS5(), stack[|stack| - 1 - size].state, YyRuleInfoLhs(action - REDUCE))))
  }

  predicate GotoHolds(next: Option<int>) { next.Some? && !(34 < next.value <= 79) && next.value != ERROR }

  lemma RuleSizes(rule: nat)
    requires rule < 28
    ensures -YyRuleInfoNRhs(rule) == |Rhs(rule)| && YyRuleInfoLhs(rule) == Lhs(rule)
  {
  }

  lemma ReduceHolds(stack: Stack, rule: int, la: int)
    requires Path(stack) && 0 <= la < INPUT && 0 <= rule && Action(stack[|stack| - 1].state, la) == REDUCE + rule
    ensures rule < 28 && 0 <= -YyRuleInfoNRhs(rule) < |stack|
    ensures GotoHolds(FindReduceAction(FTS5(), stack[|stack| - 1 + YyRuleInfoNRhs(rule)].state, YyRuleInfoLhs(rule)))
  {
    Spelled(stack, rule, la);
    RuleSizes(rule);
    GotoFound(stack, rule);
  }

  lemma PathHolds(stack: Stack, la: int)
    requires Path(stack) && 0 <= la < INPUT
    ensures ActionHolds(stack, Action(stack[|stack| - 1].state, la))
  {
    var n := |stack| - 1;
    if stack[n].state != 0 {
      Below(stack, n);
      StatesAre(stack[n].state, stack[n - 1].state);
    }
    var action := Action(stack[n].state, la);
    ActionsAre(stack[n].state, la);
    if action >= REDUCE {
      ReduceHolds(stack, action - REDUCE, la);
    } else if action == ACCEPT {
      AcceptHolds(stack, la);
    }
  }

  lemma OngoingHolds(tokens: seq<Token>, s: ParseState)
    requires Ongoing(tokens, s) && !Halted(s)
    ensures AssertsHoldAt(s.c.stack, s.input[0])
  {
    var forest, consumed :| Sane(s, forest, consumed) && consumed + s.input == tokens;
    NextActionIs(s);
    PathHolds(s.c.stack, s.input[0].major);
  }

  /** However far a parse has gone, none of the asserts of its next turn fails. */
  lemma {:induction false} AssertsHold(cap: Capacity, tokens: seq<Token>, n: nat)
    requires Tokens(tokens)
    ensures var e := Iter(QueryParser(), cap, Situation(Initial(QueryParser()), tokens), n);
            !Halted(e) ==> AssertsHoldAt(e.c.stack, e.input[0])
  {
    var s := Situation(Initial(QueryParser()), tokens);
    StartIsSane(tokens);
    var e := Iter(QueryParser(), cap, s, n);
    if !Halted(e) {
      RunIsOngoing(cap, tokens, s, n);
      OngoingHolds(tokens, e);
    }
  }
}
