/** Ownership of semantic values in the FTS5 parser (fts5parse.c): every value that a reduce
    action builds is later consumed by exactly one action, handed to ParseFinished, destroyed
    by a destructor, or still on the stack. */
module Fts5Ownership {
  import opened LemonDriver
  import opened Fts5Tables
  import opened Fts5Grammar
  import opened Fts5Automaton
  import opened Fts5Soundness
  import opened Fts5Runs

  /** A call of a builder function: it takes ownership of some values and returns a new one.
      A setter such as ParseSetColset consumes the value it changes and builds the changed one. */
  datatype Effect = Build(taken: seq<Minor>, made: Minor) | Finish(value: Minor) | Free(value: Minor)

  /** Symbols whose values are heap objects with a destructor; that of `input` frees nothing. */
  predicate Owning(symbol: int) { EXPR <= symbol <= PHRASE }

  /** The builder calls that each rule's action makes, in order. */
  function ActionEffects(rule: nat, v: seq<Minor>): seq<Effect>
    requires rule < 28 ==> |v| == |Rhs(rule)|
  {
    match rule
    case 0 => [Finish(v[0])]
    case 1 => [Build([v[2]], Act(1, v))]
    case 3 => [Build([], Act(3, v))]
    case 4 =>
      var columns := Act(3, [v[1]]);
      [Build([], columns), Build([columns], Act(4, v))]
    case 5 => [Build([v[0]], Act(5, v))]
    case 6 => [Build([], Act(6, v))]
    case 7 => [Build([v[0], v[2]], Act(7, v))]
    case 8 => [Build([v[0], v[2]], Act(8, v))]
    case 9 => [Build([v[0], v[2]], Act(9, v))]
    case 10 => [Build([v[3], v[0]], Act(10, v))]
    case 14 => [Build([v[0], v[1]], Act(14, v))]
    case 15 => [Build([v[0]], Act(15, v))]
    case 16 =>
      var node := Act(15, [v[2]]);
      [Build([v[2]], node), Build([node, v[0]], Act(16, v))]
    case 17 => [Build([v[0]], Act(17, v))]
    case 18 =>
      if v[1].OfPhrase? then
        var caret := OfPhrase(Caret(v[1].phrase));
        [Build([v[1]], caret), Build([caret], Act(18, v))]
      else []
    case 19 => [Build([v[2]], Act(19, v))]
    case 20 => [Build([v[0]], Act(20, v))]
    case 21 => [Build([v[0], v[1]], Act(21, v))]
    case 24 => [Build([v[0]], Act(24, v))]
    case 25 => [Build([], Act(25, v))]
    case _ => []
  }

  function EffectsOf(event: Event<Minor>): seq<Effect> {
    match event
    case Called(rule, args, _) => if rule < 28 && |args| == |Rhs(rule)| then ActionEffects(rule, args) else []
    case Destroyed(e) => if Owning(e.major) then [Free(e.minor)] else []
    case Rejected(token) => if Owning(token.major) then [Free(Lift(token))] else []
  }

  // ---------------------------------------------------------------- the ledger of one value `x`

  function Times(b: bool): nat { if b then 1 else 0 }

  /** How often `x` occurs among the first `n` of `vs`. */
  function Occurs(vs: seq<Minor>, n: nat, x: Minor): nat
    requires n <= |vs|
  {
    if n == 0 then 0 else Occurs(vs, n - 1, x) + Times(vs[n - 1] == x)
  }

  /** How often the first `n` effects return `x` from a builder. */
  function Made(effects: seq<Effect>, n: nat, x: Minor): nat
    requires n <= |effects|
  {
    if n == 0 then 0 else Made(effects, n - 1, x) + Times(effects[n - 1].Build? && effects[n - 1].made == x)
  }

  /** How often `x` is taken by a builder, handed to ParseFinished or freed. */
  function UsedOnce(effect: Effect, x: Minor): nat {
    match effect
    case Build(taken, _) => Occurs(taken, |taken|, x)
    case Finish(v) => Times(v == x)
    case Free(v) => Times(v == x)
  }

  function Used(effects: seq<Effect>, n: nat, x: Minor): nat
    requires n <= |effects|
  {
    if n == 0 then 0 else Used(effects, n - 1, x) + UsedOnce(effects[n - 1], x)
  }

  function MadeBy(events: seq<Event<Minor>>, x: Minor): nat {
    if events == [] then 0
    else var effects := EffectsOf(events[0]); Made(effects, |effects|, x) + MadeBy(events[1..], x)
  }

  function UsedBy(events: seq<Event<Minor>>, x: Minor): nat {
    if events == [] then 0
    else var effects := EffectsOf(events[0]); Used(effects, |effects|, x) + UsedBy(events[1..], x)
  }

  /** How often `x` is owned by the first `n` slots with these symbols and values. */
  function Held(symbols: seq<int>, vs: seq<Minor>, n: nat, x: Minor): nat
    requires n <= |symbols| && n <= |vs|
  {
    if n == 0 then 0 else Held(symbols, vs, n - 1, x) + Times(Owning(symbols[n - 1]) && vs[n - 1] == x)
  }

  /** How often `x` is owned by stack slots. */
  function Owned(es: Stack, x: Minor): nat { Held(Majors(es), Minors(es), |es|, x) }

  lemma {:induction false} HeldAppend(xs: seq<int>, vs: seq<Minor>, ys: seq<int>, ws: seq<Minor>, n: nat, x: Minor)
    requires |xs| == |vs| && |ys| == |ws| && n <= |ys|
    ensures Held(xs + ys, vs + ws, |xs| + n, x) == Held(xs, vs, |xs|, x) + Held(ys, ws, n, x)
  {
    if n == 0 {
      HeldPrefix(xs, vs, xs + ys, vs + ws, |xs|, x);
    } else {
      HeldAppend(xs, vs, ys, ws, n - 1, x);
    }
  }

  lemma {:induction false} HeldPrefix(xs: seq<int>, vs: seq<Minor>, ys: seq<int>, ws: seq<Minor>, n: nat, x: Minor)
    requires n <= |xs| <= |ys| && n <= |vs| <= |ws| && xs == ys[..|xs|] && vs == ws[..|vs|]
    ensures Held(ys, ws, n, x) == Held(xs, vs, n, x)
  {
    if n > 0 {
      HeldPrefix(xs, vs, ys, ws, n - 1, x);
    }
  }

  lemma OwnedAppend(a: Stack, b: Stack, x: Minor)
    ensures Owned(a + b, x) == Owned(a, x) + Owned(b, x)
  {
    assert Majors(a + b) == Majors(a) + Majors(b);
    assert Minors(a + b) == Minors(a) + Minors(b);
    HeldAppend(Majors(a), Minors(a), Majors(b), Minors(b), |b|, x);
  }

  lemma OwnedOne(e: Entry<Minor>, x: Minor)
    ensures Owned([e], x) == Times(Owning(e.major) && e.minor == x)
  {
    assert Held(Majors([e]), Minors([e]), 0, x) == 0;
  }

  lemma {:induction false} MadeByAppend(a: seq<Event<Minor>>, b: seq<Event<Minor>>, x: Minor)
    ensures MadeBy(a + b, x) == MadeBy(a, x) + MadeBy(b, x)
    ensures UsedBy(a + b, x) == UsedBy(a, x) + UsedBy(b, x)
  {
    if a == [] {
      assert a + b == b;
    } else {
      assert (a + b)[1..] == a[1..] + b;
      MadeByAppend(a[1..], b, x);
    }
  }

  lemma {:induction false} OneEvent(event: Event<Minor>, x: Minor)
    ensures var effects := EffectsOf(event);
            MadeBy([event], x) == Made(effects, |effects|, x) && UsedBy([event], x) == Used(effects, |effects|, x)
  {
    assert [event][1..] == [];
  }

  lemma {:induction false} FreesOne(e: Entry<Minor>, x: Minor)
    ensures MadeBy([Destroyed(e)], x) == 0 && UsedBy([Destroyed(e)], x) == Owned([e], x)
  {
    OneEvent(Destroyed(e), x);
    OwnedOne(e, x);
    var effects := EffectsOf(Destroyed(e));
    if Owning(e.major) {
      assert Made(effects, 0, x) == 0 && Used(effects, 0, x) == 0;
    }
  }

  lemma {:induction false} DestroyAllFrees(es: Stack, x: Minor)
    ensures MadeBy(DestroyAll(es), x) == 0 && UsedBy(DestroyAll(es), x) == Owned(es, x)
  {
    if es != [] {
      var n := |es| - 1;
      DestroyAllFrees(es[..n], x);
      FreesOne(es[n], x);
      MadeByAppend([Destroyed(es[n])], DestroyAll(es[..n]), x);
      OwnedAppend(es[..n], [es[n]], x);
      assert es == es[..n] + [es[n]];
    }
  }

  // ---------------------------------------------------------------- one action

  /** Each action uses every owned value of its right-hand side once, and what it makes beyond
      what it uses itself is the value it leaves. */
  ghost predicate Balanced(rule: nat, v: seq<Minor>, x: Minor)
    requires rule < 28 && |v| == |Rhs(rule)|
  {
    var effects := ActionEffects(rule, v);
    Held(Rhs(rule), v, |v|, x) + Made(effects, |effects|, x)
      == Used(effects, |effects|, x) + Times(Owning(Lhs(rule)) && Act(rule, v) == x)
  }

  lemma {:induction false} EffectsUnrolled(effects: seq<Effect>, x: Minor)
    requires |effects| <= 2
    ensures Made(effects, |effects|, x)
         == (if |effects| > 0 then Times(effects[0].Build? && effects[0].made == x) else 0)
          + (if |effects| > 1 then Times(effects[1].Build? && effects[1].made == x) else 0)
    ensures Used(effects, |effects|, x)
         == (if |effects| > 0 then UsedOnce(effects[0], x) else 0)
          + (if |effects| > 1 then UsedOnce(effects[1], x) else 0)
  {
    if |effects| == 2 {
      assert Made(effects, 1, x) == Made(effects, 0, x) + Times(effects[0].Build? && effects[0].made == x);
      assert Used(effects, 1, x) == Used(effects, 0, x) + UsedOnce(effects[0], x);
    }
  }

  lemma OccursUnrolled(effect: Effect, x: Minor)
    requires effect.Build? && |effect.taken| <= 2
    ensures UsedOnce(effect, x)
         == (if |effect.taken| > 0 then Times(effect.taken[0] == x) else 0)
          + (if |effect.taken| > 1 then Times(effect.taken[1] == x) else 0)
  {
    if |effect.taken| == 2 {
      assert Occurs(effect.taken, 1, x) == Occurs(effect.taken, 0, x) + Times(effect.taken[0] == x);
    }
  }

  lemma Unrolled(rule: nat, v: seq<Minor>, x: Minor)
    requires rule < 28 && |v| == |Rhs(rule)|
    ensures var effects := ActionEffects(rule, v);
            && |effects| <= 2
            && (forall i :: 0 <= i < |effects| && effects[i].Build? ==> |effects[i].taken| <= 2)
  {
  }

  function Sum5(symbols: seq<int>, v: seq<Minor>, x: Minor): nat
    requires |symbols| == |v|
  {
    HeldAt(symbols, v, 0, x) + HeldAt(symbols, v, 1, x) + HeldAt(symbols, v, 2, x) + HeldAt(symbols, v, 3, x)
      + HeldAt(symbols, v, 4, x)
  }

  function HeldAt(symbols: seq<int>, v: seq<Minor>, i: nat, x: Minor): nat
    requires |symbols| == |v|
  {
    if i < |v| then Times(Owning(symbols[i]) && v[i] == x) else 0
  }

  lemma {:induction false} HeldStep(symbols: seq<int>, v: seq<Minor>, n: nat, x: Minor, before: nat)
    requires |symbols| == |v| && Held(symbols, v, if n < |v| then n else |v|, x) == before
    ensures Held(symbols, v, if n + 1 < |v| then n + 1 else |v|, x) == before + HeldAt(symbols, v, n, x)
  {
  }

  lemma {:induction false} HeldIsSum(symbols: seq<int>, v: seq<Minor>, x: Minor)
    requires |symbols| == |v| <= 5
    ensures Held(symbols, v, |v|, x) == Sum5(symbols, v, x)
  {
    var h := (i: nat) => HeldAt(symbols, v, i, x);
    assert Held(symbols, v, 0, x) == 0;
    HeldStep(symbols, v, 0, x, 0);
    HeldStep(symbols, v, 1, x, h(0));
    HeldStep(symbols, v, 2, x, h(0) + h(1));
    HeldStep(symbols, v, 3, x, h(0) + h(1) + h(2));
    HeldStep(symbols, v, 4, x, h(0) + h(1) + h(2) + h(3));
  }

  /** The sums that the definition of balance compares, written out. */
  lemma {:induction false} Sums(rule: nat, v: seq<Minor>, x: Minor)
    requires rule < 28 && |v| == |Rhs(rule)|
    ensures var effects := ActionEffects(rule, v);
            && Held(Rhs(rule), v, |v|, x) == Sum5(Rhs(rule), v, x)
            && Made(effects, |effects|, x)
               == (if |effects| > 0 then Times(effects[0].Build? && effects[0].made == x) else 0)
                + (if |effects| > 1 then Times(effects[1].Build? && effects[1].made == x) else 0)
            && Used(effects, |effects|, x)
               == (if |effects| > 0 then UsedOnce(effects[0], x) else 0)
                 + (if |effects| > 1 then UsedOnce(effects[1], x) else 0)
  {
    RhsIsShort(rule);
    HeldIsSum(Rhs(rule), v, x);
    Unrolled(rule, v, x);
    EffectsUnrolled(ActionEffects(rule, v), x);
  }

  lemma RhsIsShort(rule: nat)
    ensures |Rhs(rule)| <= 5
  {
  }

  lemma Uses(rule: nat, v: seq<Minor>, x: Minor)
    requires rule < 28 && |v| == |Rhs(rule)|
    ensures forall i :: 0 <= i < |ActionEffects(rule, v)| && ActionEffects(rule, v)[i].Build? ==>
              var effect := ActionEffects(rule, v)[i];
              UsedOnce(effect, x)
              == (if |effect.taken| > 0 then Times(effect.taken[0] == x) else 0)
               + (if |effect.taken| > 1 then Times(effect.taken[1] == x) else 0)
  {
    Unrolled(rule, v, x);
    forall i | 0 <= i < |ActionEffects(rule, v)| && ActionEffects(rule, v)[i].Build?
      ensures var effect := ActionEffects(rule, v)[i];
              UsedOnce(effect, x)
              == (if |effect.taken| > 0 then Times(effect.taken[0] == x) else 0)
               + (if |effect.taken| > 1 then Times(effect.taken[1] == x) else 0)
    {
      OccursUnrolled(ActionEffects(rule, v)[i], x);
    }
  }

  lemma ColsetBalances(rule: nat, v: seq<Minor>, x: Minor)
    requires rule < 7 && AllTyped(Rhs(rule), v)
    ensures Balanced(rule, v, x)
  {
    Sums(rule, v, x);
    Uses(rule, v, x);
  }

  lemma ExprBalances(rule: nat, v: seq<Minor>, x: Minor)
    requires 7 <= rule < 12 && AllTyped(Rhs(rule), v)
    ensures Balanced(rule, v, x)
  {
    Sums(rule, v, x);
    Uses(rule, v, x);
  }

  lemma CnearsetBalances(rule: nat, v: seq<Minor>, x: Minor)
    requires 12 <= rule < 17 && AllTyped(Rhs(rule), v)
    ensures Balanced(rule, v, x)
  {
    Sums(rule, v, x);
    Uses(rule, v, x);
  }

  lemma NearBalances(rule: nat, v: seq<Minor>, x: Minor)
    requires 17 <= rule < 21 && AllTyped(Rhs(rule), v)
    ensures Balanced(rule, v, x)
  {
    Sums(rule, v, x);
    Uses(rule, v, x);
  }

  lemma PhraseBalances(rule: nat, v: seq<Minor>, x: Minor)
    requires 21 <= rule < 28 && AllTyped(Rhs(rule), v)
    ensures Balanced(rule, v, x)
  {
    Sums(rule, v, x);
    Uses(rule, v, x);
  }

  /** Each action uses every owned value of its right-hand side exactly once, and what it makes
      beyond what it uses itself is the value it leaves. */
  lemma ActionBalances(rule: nat, v: seq<Minor>, x: Minor)
    requires rule < 28 && AllTyped(Rhs(rule), v)
    ensures Balanced(rule, v, x)
  {
    if rule < 7 {
      ColsetBalances(rule, v, x);
    } else if rule < 12 {
      ExprBalances(rule, v, x);
    } else if rule < 17 {
      CnearsetBalances(rule, v, x);
    } else if rule < 21 {
      NearBalances(rule, v, x);
    } else {
      PhraseBalances(rule, v, x);
    }
  }

  // ---------------------------------------------------------------- one turn, and a whole run

  ghost predicate TurnBalances(a: Stack, b: Stack, calls: seq<Event<Minor>>, x: Minor) {
    Owned(a, x) + MadeBy(calls, x) == Owned(b, x) + UsedBy(calls, x)
  }

  lemma OverflowBalances(stack: Stack, x: Minor)
    requires stack != []
    ensures TurnBalances(stack, stack[..1], DestroyAll(stack[1..]), x)
  {
    assert stack == stack[..1] + stack[1..];
    OwnedAppend(stack[..1], stack[1..], x);
    DestroyAllFrees(stack[1..], x);
  }

  lemma ShiftBalances(stack: Stack, e: Entry<Minor>, x: Minor)
    requires e.major < INPUT
    ensures TurnBalances(stack, stack + [e], [], x)
  {
    OwnedAppend(stack, [e], x);
    OwnedOne(e, x);
  }

  /** The popped entries own what the right-hand side of the rule holds. */
  lemma HandleOwns(stack: Stack, rule: nat, x: Minor)
    requires rule < 28 && Handle(stack, rule)
    ensures |Rhs(rule)| <= |stack|
    ensures var top := stack[|stack| - |Rhs(rule)|..];
            Owned(top, x) == Held(Rhs(rule), Minors(top), |Rhs(rule)|, x)
  {
    assert Majors(stack[|stack| - |Rhs(rule)|..]) == Rhs(rule);
  }

  lemma HandleIsTyped(stack: Stack, forest: seq<Tree>, symbols: seq<int>)
    requires Trees(stack, forest) && |symbols| < |stack| && Majors(stack[|stack| - |symbols|..]) == symbols
    ensures AllTyped(symbols, Minors(stack[|stack| - |symbols|..]))
  {
    TopTrees(stack, forest, |symbols|);
    ValuesAreTyped(forest[|forest| - |symbols|..]);
  }

  lemma {:induction false} CallBalances(rule: nat, args: seq<Minor>, e: Entry<Minor>, x: Minor)
    requires rule < 28 && AllTyped(Rhs(rule), args)
    requires e.major == Lhs(rule) && e.minor == Act(rule, args)
    ensures var call := [Called(rule, args, Act(rule, args))];
            Held(Rhs(rule), args, |args|, x) + MadeBy(call, x) == UsedBy(call, x) + Owned([e], x)
  {
    ActionBalances(rule, args, x);
    OneEvent(Called(rule, args, Act(rule, args)), x);
    OwnedOne(e, x);
  }

  /** A call that accounts for what is popped and for what is pushed accounts for the turn. */
  lemma {:induction false} PopPushBalances(stack: Stack, n: nat, e: Entry<Minor>, call: seq<Event<Minor>>, x: Minor)
    requires n <= |stack| && Owned(stack[n..], x) + MadeBy(call, x) == UsedBy(call, x) + Owned([e], x)
    ensures TurnBalances(stack, stack[..n] + [e], call, x)
  {
    assert stack == stack[..n] + stack[n..];
    OwnedAppend(stack[..n], stack[n..], x);
    OwnedAppend(stack[..n], [e], x);
  }

  lemma ReduceBalances(stack: Stack, forest: seq<Tree>, rule: nat, x: Minor)
    requires Trees(stack, forest) && rule < 28 && Handle(stack, rule)
    ensures var args := Minors(stack[|stack| - |Rhs(rule)|..]);
            TurnBalances(stack, ReducedStack(stack, rule), [Called(rule, args, Act(rule, args))], x)
  {
    var n := |stack| - |Rhs(rule)|;
    var args := Minors(stack[n..]);
    HandleIsTyped(stack, forest, Rhs(rule));
    HandleOwns(stack, rule, x);
    var e := Entry(Goto(stack[n - 1].state, Lhs(rule)), Lhs(rule), Act(rule, args));
    CallBalances(rule, args, e, x);
    PopPushBalances(stack, n, e, [Called(rule, args, Act(rule, args))], x);
  }

  lemma AcceptBalances(stack: Stack, x: Minor)
    requires |stack| == 2 && stack[1].major == INPUT
    ensures TurnBalances(stack, stack[..1], [], x)
  {
    assert stack == stack[..1] + [stack[1]];
    OwnedAppend(stack[..1], [stack[1]], x);
    OwnedOne(stack[1], x);
  }

  /** The call made by a reduction. */
  lemma ReduceCall(stack: Stack, rule: nat)
    requires rule < 28 && |Rhs(rule)| <= |stack|
    ensures rule < |QueryParser().T.ruleNRhs| && 0 <= -QueryParser().T.ruleNRhs[rule] <= |stack|
    ensures var args := Minors(stack[|stack| - |Rhs(rule)|..]);
            RuleCall(QueryParser(), stack, rule) == Called(rule, args, Act(rule, args))
  {
    RuleTables(rule);
    RuleCallAs(QueryParser(), stack, rule, |Rhs(rule)|);
    ActionOfRule(rule, Minors(stack[|stack| - |Rhs(rule)|..]));
  }

  /** The stack and the calls of a turn that reduces `rule`. */
  ghost predicate IsReduction(cap: Capacity, stack: Stack, rule: nat, next: Stack, calls: seq<Event<Minor>>)
    requires rule < 28 && |Rhs(rule)| < |stack|
  {
    var args := Minors(stack[|stack| - |Rhs(rule)|..]);
    if Rhs(rule) == [] && !Fits(cap, |stack| + 1) then next == stack[..1] && calls == DestroyAll(stack[1..])
    else next == ReducedStack(stack, rule) && calls == [Called(rule, args, Act(rule, args))]
  }

  lemma ReduceTurnIs(cap: Capacity, s: ParseState, rule: nat)
    requires !Halted(s) && Path(s.c.stack) && rule < 28 && Handle(s.c.stack, rule)
    requires ReducedIn(rule, s.c.stack[|s.c.stack| - 1].state)
    ensures IsReduction(cap, s.c.stack, rule, StepOn(QueryParser(), cap, s, REDUCE + rule).c.stack,
              EventsOn(QueryParser(), cap, s, REDUCE + rule))
  {
    StepOnReduce(cap, s, rule);
    ReduceCall(s.c.stack, rule);
  }

  lemma ReductionBalances(cap: Capacity, stack: Stack, forest: seq<Tree>, rule: nat,
                          next: Stack, calls: seq<Event<Minor>>, x: Minor)
    requires Trees(stack, forest) && rule < 28 && Handle(stack, rule)
    requires IsReduction(cap, stack, rule, next, calls)
    ensures TurnBalances(stack, next, calls, x)
  {
    if Rhs(rule) == [] && !Fits(cap, |stack| + 1) {
      OverflowBalances(stack, x);
    } else {
      ReduceBalances(stack, forest, rule, x);
    }
  }

  ghost predicate OnBalances(cap: Capacity, s: ParseState, action: int, x: Minor)
    requires !Halted(s)
  {
    TurnBalances(s.c.stack, StepOn(QueryParser(), cap, s, action).c.stack, EventsOn(QueryParser(), cap, s, action), x)
  }

  lemma ShiftTurnBalances(cap: Capacity, s: ParseState, action: int, x: Minor)
    requires !Halted(s) && Tokens(s.input) && action <= 79
    ensures OnBalances(cap, s, action, x)
  {
    if !Fits(cap, |s.c.stack| + 1) {
      OverflowBalances(s.c.stack, x);
    } else {
      ShiftBalances(s.c.stack, Entry(ShiftedState(FTS5(), action), s.input[0].major, Lift(s.input[0])), x);
    }
  }

  lemma AcceptTurnBalances(cap: Capacity, s: ParseState, forest: seq<Tree>, consumed: seq<Token>, x: Minor)
    requires !Halted(s) && Sane(s, forest, consumed)
    requires Action(s.c.stack[|s.c.stack| - 1].state, s.input[0].major) == ACCEPT
    ensures OnBalances(cap, s, ACCEPT, x)
  {
    AcceptTurn(cap, s, forest, consumed);
    var n := |s.c.stack| - 1;
    AcceptState(s.c.stack[n].state, s.input[0].major);
    assert LinkAt(s.c.stack, 1);
    AcceptBalances(s.c.stack, x);
  }

  lemma ErrorTurnBalances(cap: Capacity, s: ParseState, action: int, x: Minor)
    requires !Halted(s) && Tokens(s.input) && action == ERROR
    ensures OnBalances(cap, s, action, x)
  {
    OneEvent(Rejected(s.input[0]), x);
  }

  /** Each kind of action. */
  lemma ActionTurnBalances(cap: Capacity, s: ParseState, forest: seq<Tree>, consumed: seq<Token>, action: int, x: Minor)
    requires !Halted(s) && Sane(s, forest, consumed)
    requires action == Action(s.c.stack[|s.c.stack| - 1].state, s.input[0].major)
    ensures OnBalances(cap, s, action, x)
  {
    if action <= 79 {
      ShiftTurnBalances(cap, s, action, x);
    } else if action >= REDUCE {
      Spelled(s.c.stack, action - REDUCE, s.input[0].major);
      ReduceTurnIs(cap, s, action - REDUCE);
      ReductionBalances(cap, s.c.stack, forest, action - REDUCE, StepOn(QueryParser(), cap, s, action).c.stack,
        EventsOn(QueryParser(), cap, s, action), x);
    } else if action == ACCEPT {
      AcceptTurnBalances(cap, s, forest, consumed, x);
    } else {
      NextActionIs(s);
      ErrorAction(s.c.stack[|s.c.stack| - 1].state, s.input[0].major);
      ErrorTurnBalances(cap, s, action, x);
    }
  }

  lemma TurnsBalance(cap: Capacity, tokens: seq<Token>, s: ParseState, x: Minor)
    requires Ongoing(tokens, s) && !Halted(s)
    ensures TurnBalances(s.c.stack, Step(QueryParser(), cap, s).c.stack, StepEvents(QueryParser(), cap, s), x)
  {
    var forest, consumed :| Sane(s, forest, consumed) && consumed + s.input == tokens;
    var action := Action(s.c.stack[|s.c.stack| - 1].state, s.input[0].major);
    ActionTurnBalances(cap, s, forest, consumed, action, x);
    NextActionIs(s);
  }

  function MadeOf(x: Minor): seq<Event<Minor>> -> nat { calls => MadeBy(calls, x) }

  function UsedOf(x: Minor): seq<Event<Minor>> -> nat { calls => UsedBy(calls, x) }

  function HeldOf(x: Minor): ParseState -> nat { (s: ParseState) => Owned(s.c.stack, x) }

  lemma CountsAreAdditive(x: Minor)
    ensures Additive(MadeOf(x)) && Additive(UsedOf(x))
  {
    forall a: seq<Event<Minor>>, b: seq<Event<Minor>> {:trigger Adds(MadeOf(x), a, b)} ensures Adds(MadeOf(x), a, b) {
      MadeByAppend(a, b, x);
    }
    forall a: seq<Event<Minor>>, b: seq<Event<Minor>> {:trigger Adds(UsedOf(x), a, b)} ensures Adds(UsedOf(x), a, b) {
      MadeByAppend(a, b, x);
    }
  }

  lemma {:induction false} LedgerOfRun(cap: Capacity, tokens: seq<Token>, s: ParseState, n: nat, x: Minor)
    requires Ongoing(tokens, s)
    ensures HeldOf(x)(s) + MadeOf(x)(Trace(QueryParser(), cap, s, n))
         == HeldOf(x)(Iter(QueryParser(), cap, s, n)) + UsedOf(x)(Trace(QueryParser(), cap, s, n))
  {
    CountsAreAdditive(x);
    forall y: ParseState | Ongoing(tokens, y) && !Halted(y)
      ensures var z, calls := Step(QueryParser(), cap, y), StepEvents(QueryParser(), cap, y);
              && (z.c.status.Running? ==> Ongoing(tokens, z))
              && HeldOf(x)(y) + MadeOf(x)(calls) == HeldOf(x)(z) + UsedOf(x)(calls)
    {
      OngoingTurn(cap, tokens, y);
      TurnsBalance(cap, tokens, y, x);
    }
    LedgerBalances(QueryParser(), cap, s, n, y => Ongoing(tokens, y), HeldOf(x), MadeOf(x), UsedOf(x));
    TotalIsOfTrace(QueryParser(), cap, s, n, MadeOf(x));
    TotalIsOfTrace(QueryParser(), cap, s, n, UsedOf(x));
  }

  /** Ownership over every run.  However far a parse has gone, each value has been returned by a
      builder exactly as often as it has been taken by a later one, handed to ParseFinished,
      freed, or is owned by a stack slot; once the parser is finalized, none is left over. */
  lemma {:induction false} EveryValueIsUsedOnce(cap: Capacity, tokens: seq<Token>, n: nat, x: Minor)
    requires Tokens(tokens)
    ensures var s := Situation(Initial(QueryParser()), tokens);
            var calls, stack := Trace(QueryParser(), cap, s, n), Iter(QueryParser(), cap, s, n).c.stack;
            && MadeBy(calls, x) == UsedBy(calls, x) + Owned(stack, x)
            && stack != []
            && MadeBy(calls + DestroyAll(stack[1..]), x) == UsedBy(calls + DestroyAll(stack[1..]), x)
  {
    var s := Situation(Initial(QueryParser()), tokens);
    StartIsSane(tokens);
    LedgerOfRun(cap, tokens, s, n, x);
    OwnedOne(s.c.stack[0], x);
    BottomStays(QueryParser(), cap, s, n);
    Finalized(Trace(QueryParser(), cap, s, n), Iter(QueryParser(), cap, s, n).c.stack, x);
  }

  lemma {:induction false} Finalized(calls: seq<Event<Minor>>, stack: Stack, x: Minor)
    requires stack != [] && !Owning(stack[0].major)
    requires MadeBy(calls, x) == UsedBy(calls, x) + Owned(stack, x)
    ensures MadeBy(calls + DestroyAll(stack[1..]), x) == UsedBy(calls + DestroyAll(stack[1..]), x)
  {
    MadeByAppend(calls, DestroyAll(stack[1..]), x);
    DestroyAllFrees(stack[1..], x);
    assert stack == [stack[0]] + stack[1..];
    OwnedAppend([stack[0]], stack[1..], x);
    OwnedOne(stack[0], x);
  }
}
