/** Completeness of the FTS5 parser: every derivation that respects the precedences is rebuilt
    by the automaton from its tokens, on a stack that needs an exactly known number of entries
    (fts5parse.c). */
module Fts5Completeness {
  import opened LemonDriver
  import opened Fts5Tables
  import opened Fts5Grammar
  import opened Fts5Automaton
  import opened Fts5Soundness
  import opened Fts5Runs

  // ---------------------------------------------------------------- the automaton on a tree

  function FirstMajor(tokens: seq<Token>, la: int): int {
    if tokens == [] then la else tokens[0].major
  }

  /** The lookahead in front of the trees `ts` when `la` comes after them. */
  function Ahead(ts: seq<Tree>, la: int): int {
    if ts == [] then la else FirstMajor(Yield(ts[0]), Ahead(ts[1..], la))
  }

  /** The state reached from `p` over the roots of `ts`. */
  function After(ts: seq<Tree>, p: int): int {
    if ts == [] then p else After(ts[1..], Next(p, Root(ts[0])))
  }

  /** From state `p`, with `la` behind it, the tables take the tree: every leaf is shifted and
      every rule is reduced on its lookahead. */
  ghost predicate Ok(t: Tree, p: int, la: int)
    decreases t, 1
  {
    && 0 <= p <= 34
    && match t
       case Leaf(token) => 0 <= token.major < INPUT && Action(p, token.major) <= 79
       case Branch(rule, kids) =>
         && rule < 28 && |kids| == |Rhs(rule)|
         && OkAll(kids, p, la)
         && Action(After(kids, p), la) == REDUCE + rule
         && 0 <= Goto(p, Lhs(rule))
  }

  ghost predicate OkAll(ts: seq<Tree>, p: int, la: int)
    decreases ts, 0
  {
    ts == [] || (Ok(ts[0], p, Ahead(ts[1..], la)) && OkAll(ts[1..], Next(p, Root(ts[0])), la))
  }

  /** The entries needed on top of the stack while the tree is parsed. */
  function Need(t: Tree): nat
    decreases t, 1
  {
    match t
    case Leaf(_) => 1
    case Branch(_, kids) => Max(1, NeedAll(kids))
  }

  function NeedAll(ts: seq<Tree>): nat
    decreases ts, 0
  {
    if ts == [] then 0 else Max(Need(ts[0]), 1 + NeedAll(ts[1..]))
  }

  function TopState(c: Config<Minor>): int
    requires c.stack != []
  {
    c.stack[|c.stack| - 1].state
  }

  /** The configuration with the tree's root, value and state pushed. */
  function Built(c: Config<Minor>, t: Tree): Config<Minor>
    requires c.stack != []
  {
    Config(c.stack + [Entry(Next(TopState(c), Root(t)), Root(t), Value(t))], Max(c.peak, |c.stack| + Need(t)), c.status)
  }

  function BuiltAll(c: Config<Minor>, ts: seq<Tree>): Config<Minor>
    requires c.stack != []
    decreases |ts|
  {
    if ts == [] then c else BuiltAll(Built(c, ts[0]), ts[1..])
  }

  lemma {:induction false} BuiltAllStack(c: Config<Minor>, ts: seq<Tree>)
    requires c.stack != []
    ensures var d := BuiltAll(c, ts);
            && |d.stack| == |c.stack| + |ts| && d.stack[..|c.stack|] == c.stack
            && Minors(d.stack[|c.stack|..]) == Values(ts)
    decreases |ts|
  {
    if ts != [] {
      var c1 := Built(c, ts[0]);
      BuiltAllStack(c1, ts[1..]);
      StackGrows(c.stack, c1.stack[|c.stack|], BuiltAll(c, ts).stack);
    }
  }

  lemma StackGrows(base: Stack, e: Entry<Minor>, stack: Stack)
    requires |base| < |stack| && stack[..|base| + 1] == base + [e]
    ensures stack[..|base|] == base
    ensures Minors(stack[|base|..]) == [e.minor] + Minors(stack[|base| + 1..])
  {
    assert stack[..|base|] == stack[..|base| + 1][..|base|];
    assert stack[|base|] == stack[..|base| + 1][|base|];
  }

  lemma {:induction false} BuiltAllTop(c: Config<Minor>, ts: seq<Tree>)
    requires c.stack != []
    ensures var d := BuiltAll(c, ts);
            && d.stack != [] && TopState(d) == After(ts, TopState(c))
            && (c.peak >= |c.stack| ==> d.peak == Max(c.peak, |c.stack| + NeedAll(ts)))
            && d.status == c.status
    decreases |ts|
  {
    if ts != [] {
      BuiltAllTop(Built(c, ts[0]), ts[1..]);
    }
  }

  // ---------------------------------------------------------------- running the driver

  /** A shift of the driver without bound. */
  ghost predicate ShiftsTo(a: ParseState, b: ParseState) {
    && a.c.status.Running? && a.c.stack != [] && a.input != []
    && 0 <= TopState(a.c) <= 34 && 0 <= a.input[0].major < INPUT
    && Action(TopState(a.c), a.input[0].major) <= 79
    && b == Situation(Built(a.c, Leaf(a.input[0])), a.input[1..])
  }

  /** A reduction of the driver without bound. */
  ghost predicate ReducesTo(a: ParseState, b: ParseState, rule: nat) {
    && a.c.status.Running? && Path(a.c.stack) && a.input != [] && 0 <= a.input[0].major < INPUT
    && Action(TopState(a.c), a.input[0].major) == REDUCE + rule && |Rhs(rule)| < |a.c.stack|
    && b == a.(c := Reduced(a.c, rule))
  }

  /** A reflexive and transitive relation that contains the driver's shifts and reductions. */
  ghost predicate Closed(reach: (ParseState, ParseState) -> bool) {
    && (forall a :: reach(a, a))
    && (forall a, b, c {:trigger reach(a, b), reach(b, c)} :: reach(a, b) && reach(b, c) ==> reach(a, c))
    && (forall a, b {:trigger ShiftsTo(a, b)} :: ShiftsTo(a, b) ==> reach(a, b))
    && (forall a, b, rule {:trigger ReducesTo(a, b, rule)} :: ReducesTo(a, b, rule) ==> reach(a, b))
  }

  lemma {:induction false} AheadIsFirst(ts: seq<Tree>, rest: seq<Token>)
    requires rest != []
    ensures (Yields(ts) + rest)[0].major == Ahead(ts, rest[0].major)
  {
    if ts != [] {
      AheadIsFirst(ts[1..], rest);
      assert Yields(ts) + rest == Yield(ts[0]) + (Yields(ts[1..]) + rest);
    }
  }

  /** Where the tables take a tree the driver builds it. */
  lemma {:induction false} Builds(reach: (ParseState, ParseState) -> bool, t: Tree, c: Config<Minor>, rest: seq<Token>)
    requires Closed(reach)
    requires c.status.Running? && Path(c.stack) && |c.stack| <= c.peak
    requires rest != [] && 0 <= rest[0].major < INPUT
    requires Ok(t, TopState(c), rest[0].major)
    ensures reach(Situation(c, Yield(t) + rest), Situation(Built(c, t), rest))
    ensures Path(Built(c, t).stack)
    decreases t, 1
  {
    match t {
      case Leaf(token) =>
        assert ([token] + rest)[1..] == rest;
        assert ShiftsTo(Situation(c, [token] + rest), Situation(Built(c, t), rest));
        PathBuilt(c, t);
      case Branch(rule, kids) =>
        BuildsAll(reach, kids, c, rest);
        BuiltAllTop(c, kids);
        ReducedIsBuilt(c, rule, kids);
        assert ReducesTo(Situation(BuiltAll(c, kids), rest), Situation(Built(c, t), rest), rule);
        PathBuilt(c, t);
    }
  }

  lemma {:induction false} BuildsAll(reach: (ParseState, ParseState) -> bool, ts: seq<Tree>, c: Config<Minor>,
                                     rest: seq<Token>)
    requires Closed(reach)
    requires c.status.Running? && Path(c.stack) && |c.stack| <= c.peak
    requires rest != [] && 0 <= rest[0].major < INPUT
    requires OkAll(ts, TopState(c), rest[0].major)
    ensures reach(Situation(c, Yields(ts) + rest), Situation(BuiltAll(c, ts), rest))
    ensures Path(BuiltAll(c, ts).stack)
    decreases ts, 0
  {
    if ts == [] {
      assert Yields(ts) + rest == rest;
    } else {
      var rest' := Yields(ts[1..]) + rest;
      assert Yields(ts) + rest == Yield(ts[0]) + rest';
      AheadIsFirst(ts[1..], rest);
      AheadInRange(ts[1..], Next(TopState(c), Root(ts[0])), rest[0].major);
      Builds(reach, ts[0], c, rest');
      BuildsAll(reach, ts[1..], Built(c, ts[0]), rest);
    }
  }

  lemma PathBuilt(c: Config<Minor>, t: Tree)
    requires Path(c.stack) && 0 <= TopState(c) <= 34 && 0 <= Root(t) <= STAROPT
    requires 0 <= Next(TopState(c), Root(t))
    ensures Path(Built(c, t).stack)
  {
    TransitionsIff(TopState(c), Root(t), Next(TopState(c), Root(t)));
    PathPush(c.stack, Entry(Next(TopState(c), Root(t)), Root(t), Value(t)));
  }

  lemma ReducedStackIs(stack: Stack, base: Stack, rule: nat)
    requires base != [] && |stack| == |base| + |Rhs(rule)| && stack[..|base|] == base
    ensures ReducedStack(stack, rule)
         == base + [Entry(Goto(base[|base| - 1].state, Lhs(rule)), Lhs(rule), Act(rule, Minors(stack[|base|..])))]
  {
    assert stack[|base| - 1] == stack[..|base|][|base| - 1];
  }

  lemma LhsInRange(rule: nat)
    requires rule < 28
    ensures INPUT <= Lhs(rule) <= STAROPT
  {
  }

  lemma {:induction false} BranchEntry(p: int, rule: nat, kids: seq<Tree>, values: seq<Minor>)
    requires rule < 28 && values == Values(kids)
    ensures var t := Branch(rule, kids);
      Entry(Next(p, Root(t)), Root(t), Value(t)) == Entry(Goto(p, Lhs(rule)), Lhs(rule), Act(rule, values))
  {
    LhsInRange(rule);
  }

  lemma {:induction false} BuiltStackIs(stack: Stack, c: Config<Minor>, rule: nat, kids: seq<Tree>)
    requires c.stack != [] && rule < 28 && |kids| == |Rhs(rule)|
    requires |stack| == |c.stack| + |kids| && stack[..|c.stack|] == c.stack
    requires Minors(stack[|c.stack|..]) == Values(kids)
    ensures ReducedStack(stack, rule) == Built(c, Branch(rule, kids)).stack
  {
    ReducedStackIs(stack, c.stack, rule);
    BranchEntry(TopState(c), rule, kids, Minors(stack[|c.stack|..]));
  }

  lemma {:induction false} BuiltPeakIs(c: Config<Minor>, rule: nat, kids: seq<Tree>, peak: nat)
    requires c.stack != [] && |c.stack| <= c.peak && peak == Max(c.peak, |c.stack| + NeedAll(kids))
    ensures Max(peak, |c.stack| + 1) == Built(c, Branch(rule, kids)).peak
  {
  }

  lemma {:induction false} ReducedIsBuilt(c: Config<Minor>, rule: nat, kids: seq<Tree>)
    requires c.stack != [] && |c.stack| <= c.peak && rule < 28 && |kids| == |Rhs(rule)|
    ensures |Rhs(rule)| < |BuiltAll(c, kids).stack|
    ensures Reduced(BuiltAll(c, kids), rule) == Built(c, Branch(rule, kids))
  {
    var d := BuiltAll(c, kids);
    BuiltAllStack(c, kids);
    BuiltStackIs(d.stack, c, rule, kids);
    BuiltAllTop(c, kids);
    BuiltPeakIs(c, rule, kids, d.peak);
  }

  /** A tree that the tables take begins with a terminal, if with anything. */
  lemma {:induction false} FirstInRange(t: Tree, p: int, la: int)
    requires Ok(t, p, la) && 0 <= la < INPUT
    ensures 0 <= FirstMajor(Yield(t), la) < INPUT
    decreases t, 1
  {
    if t.Branch? {
      AheadInRange(t.kids, p, la);
      YieldsFirst(t.kids, la);
    }
  }

  lemma {:induction false} AheadInRange(ts: seq<Tree>, p: int, la: int)
    requires OkAll(ts, p, la) && 0 <= la < INPUT
    ensures 0 <= Ahead(ts, la) < INPUT
    decreases ts, 0
  {
    if ts != [] {
      AheadInRange(ts[1..], Next(p, Root(ts[0])), la);
      FirstInRange(ts[0], p, Ahead(ts[1..], la));
    }
  }

  lemma {:induction false} YieldsFirst(ts: seq<Tree>, la: int)
    ensures FirstMajor(Yields(ts), la) == Ahead(ts, la)
  {
    if ts != [] {
      YieldsFirst(ts[1..], la);
    }
  }

  // ---------------------------------------------------------------- the tables take every derivation

  predicate AfterExpr(la: int) { la == 0 || la == OR || la == AND || la == NOT || la == RP }

  predicate AfterCnearset(la: int) { AfterExpr(la) || la == MINUS || la == LCP || la == STRING || la == CARET }

  predicate AfterPhrase(la: int) { 0 <= la < INPUT && la != STAR && la != LP && la != COLON }

  /** The states in which symbol `n` may be built, as an expression of the given level, and the
      lookaheads behind it. */
  predicate ExpectedAt(n: int, level: int, p: int, la: int) {
    if n == INPUT then p == 0 && la == 0
    else if n == EXPR then 0 <= p <= 5 && AfterExpr(la) && level >= StateLevel(p) && (la == AND ==> level >= 2)
      && (la == NOT ==> level >= 3)
    else if n == EXPRLIST then 0 <= p <= 5 && AfterCnearset(la)
    else if n == CNEARSET then 0 <= p <= 6 && AfterCnearset(la)
    else if n == COLSET then 0 <= p <= 6 && la == COLON
    else if n == COLSETLIST then (p == 16 || p == 17) && (la == STRING || la == RCP)
    else if n == NEARSET then 0 <= p <= 8 && AfterCnearset(la)
    else if n == NEARPHRASES then p == 10 && (la == STRING || la == COMMA || la == RP)
    else if n == NEARDIST then p == 9 && la == RP
    else if n == PHRASE then (0 <= p <= 10 || p == 13) && AfterPhrase(la)
    else if n == STAROPT then (p == 11 || p == 12 || p == 14 || p == 15) && AfterPhrase(la)
    else 0 <= p <= 34 && 0 <= n < INPUT && Action(p, n) <= 79
  }

  /** `x` can be the first terminal of symbol `n` when `la` comes behind it. */
  predicate Leads(n: int, x: int, la: int) {
    if 0 <= n < INPUT then x == n
    else if n == PHRASE then x == STRING
    else if n == NEARSET then x == STRING || x == CARET
    else if n == COLSET then x == STRING || x == MINUS || x == LCP
    else if n == CNEARSET then x == MINUS || x == LCP || x == STRING || x == CARET
    else if n == NEARDIST then x == COMMA || x == la
    else true
  }

  lemma {:induction false} LeadsIs(t: Tree, la: int)
    requires Derivation(t)
    ensures Leads(Root(t), FirstMajor(Yield(t), la), la)
  {
    if t.Branch? {
      LhsInRange(t.rule);
      if t.kids != [] {
        assert Roots(t.kids)[0] == Rhs(t.rule)[0];
        LeadsIs(t.kids[0], Ahead(t.kids[1..], la));
        YieldsFirst(t.kids, la);
      }
    }
  }

  function RuleLevel(rule: nat): int { if rule == 8 then 1 else if rule == 7 then 2 else if rule == 9 then 3 else 4 }

  /** `q` is the state after the first `i` symbols of the rule, started in state `p`. */
  predicate At(rule: nat, i: nat, p: int, q: int) {
    if i == 0 then q == p
    else if i == 1 then Rhs(rule) != [] && q == Next(p, Rhs(rule)[0])
    else Item(q, rule, i)
  }

  /** `x` is a lookahead behind symbol `i` of the rule when `la` comes behind the rule. */
  predicate Behind(rule: nat, i: nat, x: int, la: int) {
    if i + 1 < |Rhs(rule)| then Leads(Rhs(rule)[i + 1], x, if Rhs(rule)[i + 1] == NEARDIST then RP else la)
    else x == la
  }

  /** An operand of level `l` may be symbol `i` of the rule. */
  predicate LevelFits(rule: nat, i: nat, l: int) {
    && l >= 1
    && (rule == 7 ==> (i == 0 ==> l >= 2) && (i == 2 ==> l >= 3))
    && (rule == 8 ==> (i == 2 ==> l >= 2))
    && (rule == 9 ==> (i == 0 ==> l >= 3) && (i == 2 ==> l >= 4))
  }

  /** Symbol `i` of a rule is expected where the rule has come to it. */
  predicate Advances(rule: nat, i: nat, p: int, q: int, l: int, x: int)
    requires i < |Rhs(rule)|
  {
    ExpectedAt(Rhs(rule)[i], l, q, x) && At(rule, i + 1, p, Next(q, Rhs(rule)[i]))
  }

  lemma AdvanceColset(rule: nat, i: nat, p: int, q: int, l: int, x: int, la: int)
    requires 0 <= rule < 7 && i < |Rhs(rule)| && At(rule, i, p, q)
    requires ExpectedAt(Lhs(rule), RuleLevel(rule), p, la) && Behind(rule, i, x, la) && LevelFits(rule, i, l)
    ensures Advances(rule, i, p, q, l, x)
  {
  }

  lemma AdvanceExpr(rule: nat, i: nat, p: int, q: int, l: int, x: int, la: int)
    requires 7 <= rule < 13 && i < |Rhs(rule)| && At(rule, i, p, q)
    requires ExpectedAt(Lhs(rule), RuleLevel(rule), p, la) && Behind(rule, i, x, la) && LevelFits(rule, i, l)
    ensures Advances(rule, i, p, q, l, x)
  {
  }

  lemma AdvanceCnearset(rule: nat, i: nat, p: int, q: int, l: int, x: int, la: int)
    requires 13 <= rule < 18 && i < |Rhs(rule)| && At(rule, i, p, q)
    requires ExpectedAt(Lhs(rule), RuleLevel(rule), p, la) && Behind(rule, i, x, la) && LevelFits(rule, i, l)
    ensures Advances(rule, i, p, q, l, x)
  {
  }

  lemma AdvanceNear(rule: nat, i: nat, p: int, q: int, l: int, x: int, la: int)
    requires 18 <= rule < 20 && i < |Rhs(rule)| && At(rule, i, p, q)
    requires ExpectedAt(Lhs(rule), RuleLevel(rule), p, la) && Behind(rule, i, x, la) && LevelFits(rule, i, l)
    ensures Advances(rule, i, p, q, l, x)
  {
  }

  lemma AdvancePhrase(rule: nat, i: nat, p: int, q: int, l: int, x: int, la: int)
    requires 20 <= rule < 28 && i < |Rhs(rule)| && At(rule, i, p, q)
    requires ExpectedAt(Lhs(rule), RuleLevel(rule), p, la) && Behind(rule, i, x, la) && LevelFits(rule, i, l)
    ensures Advances(rule, i, p, q, l, x)
  {
  }

  lemma Advance(rule: nat, i: nat, p: int, q: int, l: int, x: int, la: int)
    requires rule < 28 && i < |Rhs(rule)| && At(rule, i, p, q)
    requires ExpectedAt(Lhs(rule), RuleLevel(rule), p, la) && Behind(rule, i, x, la) && LevelFits(rule, i, l)
    ensures Advances(rule, i, p, q, l, x)
  {
    if rule < 7 {
      AdvanceColset(rule, i, p, q, l, x, la);
    } else if rule < 13 {
      AdvanceExpr(rule, i, p, q, l, x, la);
    } else if rule < 18 {
      AdvanceCnearset(rule, i, p, q, l, x, la);
    } else if rule < 20 {
      AdvanceNear(rule, i, p, q, l, x, la);
    } else {
      AdvancePhrase(rule, i, p, q, l, x, la);
    }
  }

  /** At its end a rule is reduced on the lookahead behind it, and the goto exists. */
  lemma Finishes(rule: nat, p: int, q: int, la: int)
    requires rule < 28 && At(rule, |Rhs(rule)|, p, q) && ExpectedAt(Lhs(rule), RuleLevel(rule), p, la)
    ensures 0 <= p <= 34 && Action(q, la) == REDUCE + rule && 0 <= Goto(p, Lhs(rule))
  {
  }

  // ---------------------------------------------------------------- every derivation is taken

  lemma {:induction false} KidFacts(t: Tree, i: nat)
    requires Derivation(t) && Precedence(t) && t.Branch? && i < |t.kids|
    ensures t.rule < 28 && |Rhs(t.rule)| == |t.kids|
    ensures Root(t.kids[i]) == Rhs(t.rule)[i] && Derivation(t.kids[i]) && Precedence(t.kids[i])
    ensures LevelFits(t.rule, i, Level(t.kids[i]))
  {
    assert Roots(t.kids)[i] == Rhs(t.rule)[i];
    DerivationsAt(t.kids, i);
    PrecedencesAt(t.kids, i);
  }

  /** What is seen behind a child is the first token of the next one. */
  lemma BehindKid(t: Tree, i: nat, la: int)
    requires Derivation(t) && Precedence(t) && t.Branch? && i < |t.kids|
    ensures Behind(t.rule, i, Ahead(t.kids[i + 1..], la), la)
  {
    KidFacts(t, i);
    if i + 1 < |t.kids| {
      KidFacts(t, i + 1);
      var rest := t.kids[i + 1..];
      LeadsIs(rest[0], Ahead(rest[1..], la));
      if Rhs(t.rule)[i + 1] == NEARDIST {
        NearDistThenRp(t.rule, i + 1);
        KidFacts(t, i + 2);
        assert rest[1] == t.kids[i + 2];
        LeadsIs(rest[1], Ahead(rest[1..][1..], la));
      } else {
        LeadsAny(Rhs(t.rule)[i + 1], FirstMajor(Yield(rest[0]), Ahead(rest[1..], la)), Ahead(rest[1..], la), la);
      }
    }
  }

  lemma NearDistThenRp(rule: nat, i: nat)
    requires rule < 28 && i < |Rhs(rule)| && Rhs(rule)[i] == NEARDIST
    ensures i + 1 < |Rhs(rule)| && Rhs(rule)[i + 1] == RP
  {
  }

  lemma LeadsAny(n: int, x: int, la: int, la': int)
    requires Leads(n, x, la) && n != NEARDIST
    ensures Leads(n, x, la')
  {
  }

  /** The tables take every derivation that respects the precedences, in every state and before
      every lookahead where its symbol is expected. */
  lemma {:induction false} Takes(t: Tree, p: int, la: int)
    requires Derivation(t) && Precedence(t) && ExpectedAt(Root(t), Level(t), p, la)
    ensures Ok(t, p, la)
    decreases t, 2
  {
    if t.Branch? {
      assert t.kids[0..] == t.kids;
      TakesFrom(t, p, la, 0, p);
      Finishes(t.rule, p, After(t.kids, p), la);
    }
  }

  lemma {:induction false} TakesFrom(t: Tree, p: int, la: int, i: nat, q: int)
    requires Derivation(t) && Precedence(t) && t.Branch? && ExpectedAt(Root(t), Level(t), p, la)
    requires i <= |t.kids| && At(t.rule, i, p, q)
    ensures t.rule < 28 && |Rhs(t.rule)| == |t.kids|
    ensures OkAll(t.kids[i..], q, la) && At(t.rule, |t.kids|, p, After(t.kids[i..], q))
    decreases t, 1, |t.kids| - i
  {
    if i < |t.kids| {
      var kid := t.kids[i];
      var x := Ahead(t.kids[i + 1..], la);
      KidFacts(t, i);
      BehindKid(t, i, la);
      Advance(t.rule, i, p, q, Level(kid), x, la);
      Takes(kid, q, x);
      TakesFrom(t, p, la, i + 1, Next(q, Root(kid)));
      assert t.kids[i..][1..] == t.kids[i + 1..];
    }
  }
}
