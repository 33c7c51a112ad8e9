/** Soundness of the FTS5 parser: the stack is at all times the frontier of a derivation, by the
    grammar and its precedences, of exactly the tokens shifted so far (fts5parse.c). */
module Fts5Soundness {
  import opened LemonDriver
  import opened Fts5Tables
  import opened Fts5Grammar
  import opened Fts5Automaton

  type ParseState = Situation<Minor>

  /** How tightly an `expr` must bind when it is built above state `p`: it is the right operand
      of OR in state 4, of AND in state 5 and of NOT in state 3. */
  function StateLevel(p: int): int {
    if p == 4 then 2 else if p == 5 then 3 else if p == 3 then 4 else 1
  }

  /** An `expr` followed by an operator binds at least as tightly as the operator. */
  ghost predicate OperandOf(t: Tree, next: int) {
    && (next == AND ==> Level(t) >= 2)
    && (next == NOT ==> Level(t) >= 3)
  }

  ghost predicate TreeAt(stack: Stack, forest: seq<Tree>, i: int)
    requires |forest| + 1 == |stack| && 1 <= i < |stack|
  {
    var t := forest[i - 1];
    && Derivation(t) && Precedence(t)
    && Root(t) == stack[i].major
    && Value(t) == stack[i].minor
    && (Root(t) == EXPR ==> Level(t) >= StateLevel(stack[i - 1].state))
    && (Root(t) == EXPR && i + 1 < |stack| ==> OperandOf(t, stack[i + 1].major))
  }

  ghost predicate Trees(stack: Stack, forest: seq<Tree>) {
    && |forest| + 1 == |stack|
    && forall i {:trigger TreeAt(stack, forest, i)} :: 1 <= i < |stack| ==> TreeAt(stack, forest, i)
  }

  /** What the lookahead must be for the entry on top: a nonterminal waits for one, an `expr`
      has been reduced against it, and the start symbol stands only before end of input. */
  ghost predicate TopAgrees(stack: Stack, forest: seq<Tree>, input: seq<Token>)
    requires |forest| + 1 == |stack|
  {
    |stack| > 1 ==>
      var top := stack[|stack| - 1];
      && (top.major >= INPUT ==> input != [])
      && (top.major == EXPR && input != [] ==> OperandOf(forest[|forest| - 1], input[0].major))
      && (top.state == ACCEPT ==> input != [] && input[0].major == 0)
  }

  /** `forest` derives `consumed`, and the stack is its row of roots. */
  ghost predicate Sound(stack: Stack, forest: seq<Tree>, input: seq<Token>, consumed: seq<Token>) {
    && Path(stack)
    && Trees(stack, forest)
    && TopAgrees(stack, forest, input)
    && Yields(forest) == consumed
  }

  predicate Tokens(input: seq<Token>) {
    forall i :: 0 <= i < |input| ==> 0 <= input[i].major < INPUT
  }

  // ---------------------------------------------------------------- shift

  lemma PathPush(stack: Stack, e: Entry<Minor>)
    requires Path(stack) && Pred(e.state, stack[|stack| - 1].state) && e.major == Acc(e.state)
    ensures Path(stack + [e])
  {
    var stack' := stack + [e];
    forall i | 1 <= i < |stack'| ensures LinkAt(stack', i) {
      if i < |stack| {
        assert LinkAt(stack, i);
      }
    }
  }

  lemma PathPop(stack: Stack, n: nat)
    requires Path(stack) && 0 < n <= |stack|
    ensures Path(stack[..n])
  {
    forall i | 1 <= i < n ensures LinkAt(stack[..n], i) {
      assert LinkAt(stack, i);
    }
  }

  lemma TreesPop(stack: Stack, forest: seq<Tree>, n: nat)
    requires Trees(stack, forest) && 0 < n <= |stack|
    ensures Trees(stack[..n], forest[..n - 1])
  {
    var stack', forest' := stack[..n], forest[..n - 1];
    forall i | 1 <= i < |stack'| ensures TreeAt(stack', forest', i) {
      assert TreeAt(stack, forest, i);
    }
  }

  lemma {:induction false} TreesPush(stack: Stack, forest: seq<Tree>, e: Entry<Minor>, t: Tree)
    requires Trees(stack, forest) && 0 < |stack|
    requires Derivation(t) && Precedence(t) && Root(t) == e.major && Value(t) == e.minor
    requires Root(t) == EXPR ==> Level(t) >= StateLevel(stack[|stack| - 1].state)
    requires |stack| > 1 && Root(forest[|forest| - 1]) == EXPR ==> OperandOf(forest[|forest| - 1], e.major)
    ensures Trees(stack + [e], forest + [t])
  {
    var stack', forest' := stack + [e], forest + [t];
    forall i | 1 <= i < |stack'| ensures TreeAt(stack', forest', i) {
      assert stack'[i - 1] == stack[i - 1];
      if i < |stack| {
        assert TreeAt(stack, forest, i);
        assert stack'[i] == stack[i] && forest'[i - 1] == forest[i - 1];
        if i + 1 < |stack| {
          assert stack'[i + 1] == stack[i + 1];
        } else {
          assert stack'[i + 1] == e && forest[i - 1] == forest[|forest| - 1];
        }
      } else {
        assert stack'[i] == e && forest'[i - 1] == t;
      }
    }
  }

  lemma {:induction false} YieldsPush(forest: seq<Tree>, t: Tree)
    ensures Yields(forest + [t]) == Yields(forest) + Yield(t)
  {
    YieldsAppend(forest, [t]);
    assert Yields([t]) == Yield(t) + Yields([t][1..]);
    assert [t][1..] == [];
  }

  /** Shifting extends the forest with a leaf. */
  lemma ShiftSound(stack: Stack, forest: seq<Tree>, input: seq<Token>, consumed: seq<Token>, action: int)
    requires Sound(stack, forest, input, consumed) && Tokens(input) && input != []
    requires action == Action(stack[|stack| - 1].state, input[0].major) <= 79
    ensures var token := input[0];
            Sound(stack + [Entry(ShiftedState(FTS5(), action), token.major, Lift(token))],
                  forest + [Leaf(token)], input[1..], consumed + [token])
  {
    var token := input[0];
    var p := stack[|stack| - 1].state;
    var e := Entry(ShiftedState(FTS5(), action), token.major, Lift(token));
    StateInRange(stack, action, token.major);
    TransitionsIff(p, token.major, e.state);
    PathPush(stack, e);
    if |stack| > 1 {
      assert TreeAt(stack, forest, |stack| - 1);
    }
    TreesPush(stack, forest, e, Leaf(token));
    YieldsPush(forest, Leaf(token));
  }

  /** Only states, never pending reduces, take a shift. */
  lemma StateInRange(stack: Stack, action: int, la: int)
    requires Path(stack) && 0 <= la < INPUT
    requires action == Action(stack[|stack| - 1].state, la) <= 79
    ensures 0 <= stack[|stack| - 1].state <= 34
    ensures Next(stack[|stack| - 1].state, la) == ShiftedState(FTS5(), action)
    ensures 0 <= ShiftedState(FTS5(), action) != ACCEPT
  {
    var n := |stack| - 1;
    if stack[n].state != 0 {
      Below(stack, n);
      StatesAre(stack[n].state, stack[n - 1].state);
    }
    ActionsAre(stack[n].state, la);
  }

  lemma StatesAre(q: int, p: int)
    requires Pred(q, p)
    ensures 1 <= q <= 34 || q == ACCEPT || REDUCE < q < REDUCE + 28
    ensures 0 <= p <= 34
  {
  }

  lemma ActionsAre(q: int, la: int)
    requires 0 <= q && 0 <= la < INPUT
    ensures q > 34 ==> Action(q, la) == q
    ensures q <= 34 ==>
      1 <= Action(q, la) <= 34 || 52 <= Action(q, la) <= ERROR || REDUCE <= Action(q, la) < REDUCE + 28
  {
  }

  // ---------------------------------------------------------------- reduce

  lemma {:induction false} AllDerivations(ts: seq<Tree>)
    requires forall t :: t in ts ==> Derivation(t) && Precedence(t)
    ensures Derivations(ts) && Precedences(ts)
  {
    if ts != [] {
      AllDerivations(ts[1..]);
    }
  }

  /** The trees of the top `k` entries carry these entries' symbols and values. */
  lemma TopTrees(stack: Stack, forest: seq<Tree>, k: nat)
    requires Trees(stack, forest) && k < |stack|
    ensures var kids, top := forest[|forest| - k..], stack[|stack| - k..];
            && Derivations(kids) && Precedences(kids)
            && Roots(kids) == Majors(top) && Values(kids) == Minors(top)
  {
    var kids, top := forest[|forest| - k..], stack[|stack| - k..];
    forall i: nat | i < k
      ensures Root(kids[i]) == top[i].major && Value(kids[i]) == top[i].minor
      ensures Derivation(kids[i]) && Precedence(kids[i])
    {
      assert TreeAt(stack, forest, |stack| - k + i);
    }
    AllDerivations(kids);
    forall i: nat | i < k ensures Values(kids)[i] == Minors(top)[i] {
      ValuesAt(kids, i);
    }
  }

  predicate IsBinary(rule: nat) { rule == 7 || rule == 8 || rule == 9 }

  lemma OperatorStates(rule: nat, q3: int, q2: int, q1: int, p: int)
    requires IsBinary(rule) && ReducedIn(rule, q3) && Pred(q3, q2) && Pred(q2, q1) && Pred(q1, p)
    requires Acc(q2) == Rhs(rule)[1]
    ensures StateLevel(q2) == (if rule == 7 then 3 else if rule == 8 then 2 else 4)
    ensures StateLevel(p) <= (if rule == 7 then 2 else if rule == 8 then 1 else 3)
  {
  }

  /** The states of the top entries, when an operator is about to be applied. */
  lemma OperatorLinks(stack: Stack, rule: nat)
    requires Path(stack) && IsBinary(rule) && Handle(stack, rule)
    ensures |stack| >= 4
    ensures var n := |stack| - 1;
            && Pred(stack[n].state, stack[n - 1].state) && Pred(stack[n - 1].state, stack[n - 2].state)
            && Pred(stack[n - 2].state, stack[n - 3].state)
            && Acc(stack[n - 1].state) == Rhs(rule)[1]
  {
    var n := |stack| - 1;
    assert LinkAt(stack, n) && LinkAt(stack, n - 1) && LinkAt(stack, n - 2);
    var top := stack[|stack| - 3..];
    assert Majors(top)[1] == top[1].major == stack[n - 1].major;
  }

  /** In a reduction by AND, OR or NOT the operands bind tightly enough, and so does the result
      for the place where it is put. */
  lemma OperandsBind(stack: Stack, forest: seq<Tree>, rule: nat)
    requires Path(stack) && Trees(stack, forest) && IsBinary(rule)
    requires ReducedIn(rule, stack[|stack| - 1].state) && Handle(stack, rule)
    ensures Precedence(Branch(rule, forest[|forest| - 3..]))
    ensures Level(Branch(rule, [])) >= StateLevel(stack[|stack| - 4].state)
  {
    var n := |stack| - 1;
    OperatorLinks(stack, rule);
    OperatorStates(rule, stack[n].state, stack[n - 1].state, stack[n - 2].state, stack[n - 3].state);
    OperandLevels(stack, forest, rule);
    TopTrees(stack, forest, 3);
    var kids := forest[|forest| - 3..];
    assert kids[0] == forest[n - 3] && kids[2] == forest[n - 1];
  }

  /** How tightly the two operands bind. */
  lemma OperandLevels(stack: Stack, forest: seq<Tree>, rule: nat)
    requires Trees(stack, forest) && IsBinary(rule) && Handle(stack, rule) && |stack| >= 4
    ensures var n := |stack| - 1;
            && Root(forest[n - 1]) == EXPR && Level(forest[n - 1]) >= StateLevel(stack[n - 1].state)
            && Root(forest[n - 3]) == EXPR && OperandOf(forest[n - 3], Rhs(rule)[1])
  {
    var n := |stack| - 1;
    var top := stack[|stack| - 3..];
    assert Majors(top)[0] == stack[n - 2].major && Majors(top)[1] == stack[n - 1].major
      && Majors(top)[2] == stack[n].major;
    assert TreeAt(stack, forest, n) && TreeAt(stack, forest, n - 2);
  }

  /** The lookaheads on which an `expr` is reduced do not bind tighter than it does, and the
      start symbol is reduced at end of input. */
  lemma LookaheadAgrees(rule: nat, q: int, la: int)
    requires rule < 28 && ReducedIn(rule, q) && 0 <= la < INPUT && Action(q, la) == REDUCE + rule
    ensures Lhs(rule) == EXPR ==> OperandOf(Branch(rule, []), la)
    ensures Lhs(rule) == INPUT ==> la == 0
  {
  }

  lemma GotoAgrees(p: int, rule: nat)
    requires 0 <= p <= 34 && rule < 28 && GotoExists(p, rule)
    ensures Next(p, Lhs(rule)) == Goto(p, Lhs(rule)) && INPUT <= Lhs(rule) <= STAROPT
    ensures Goto(p, Lhs(rule)) == ACCEPT ==> Lhs(rule) == INPUT
  {
  }

  /** The tree built by a reduction. */
  lemma ReducedTree(stack: Stack, forest: seq<Tree>, rule: nat, la: int)
    requires Path(stack) && Trees(stack, forest) && 0 <= la < INPUT && rule < 28 && Handle(stack, rule)
    requires ReducedIn(rule, stack[|stack| - 1].state) && Action(stack[|stack| - 1].state, la) == REDUCE + rule
    ensures var k := |Rhs(rule)|;
            var t := Branch(rule, forest[|forest| - k..]);
            && Derivation(t) && Precedence(t)
            && Value(t) == Act(rule, Minors(stack[|stack| - k..]))
            && (Root(t) == EXPR ==> Level(t) >= StateLevel(stack[|stack| - 1 - k].state) && OperandOf(t, la))
            && (Root(t) == INPUT ==> la == 0)
  {
    TopTrees(stack, forest, |Rhs(rule)|);
    LookaheadAgrees(rule, stack[|stack| - 1].state, la);
    if IsBinary(rule) {
      OperandsBind(stack, forest, rule);
    }
  }

  /** The path after a reduction. */
  lemma ReducedPath(stack: Stack, rule: nat, minor: Minor)
    requires Path(stack) && rule < 28 && Handle(stack, rule) && ReducedIn(rule, stack[|stack| - 1].state)
    ensures var base := stack[..|stack| - |Rhs(rule)|];
            var e := Entry(Goto(base[|base| - 1].state, Lhs(rule)), Lhs(rule), minor);
            Path(base + [e]) && e.major >= INPUT && (e.state == ACCEPT ==> e.major == INPUT)
  {
    var base := stack[..|stack| - |Rhs(rule)|];
    PathPop(stack, |base|);
    BaseInRange(stack, rule);
    var p := base[|base| - 1].state;
    GotoAgrees(p, rule);
    TransitionsIff(p, Lhs(rule), Goto(p, Lhs(rule)));
    PathPush(base, Entry(Goto(p, Lhs(rule)), Lhs(rule), minor));
  }

  function ReducedStack(stack: Stack, rule: nat): Stack
    requires |Rhs(rule)| < |stack|
  {
    var n := |stack| - |Rhs(rule)|;
    stack[..n] + [Entry(Goto(stack[n - 1].state, Lhs(rule)), Lhs(rule), Act(rule, Minors(stack[n..])))]
  }

  function ReducedForest(forest: seq<Tree>, rule: nat): seq<Tree>
    requires |Rhs(rule)| <= |forest|
  {
    var n := |forest| - |Rhs(rule)|;
    forest[..n] + [Branch(rule, forest[n..])]
  }

  /** The top trees replaced by one tree. */
  lemma {:induction false} TreesReplaced(stack: Stack, forest: seq<Tree>, n: nat, e: Entry<Minor>, t: Tree)
    requires Trees(stack, forest) && 0 < n <= |stack|
    requires Derivation(t) && Precedence(t) && Root(t) == e.major && Value(t) == e.minor
    requires Root(t) == EXPR ==> Level(t) >= StateLevel(stack[n - 1].state)
    requires Path(stack[..n] + [e]) && e.major >= INPUT
    ensures Trees(stack[..n] + [e], forest[..n - 1] + [t])
  {
    TreesPop(stack, forest, n);
    TreesPush(stack[..n], forest[..n - 1], e, t);
  }

  /** Reducing replaces the top trees by one tree with them as children. */
  lemma ReduceSound(stack: Stack, forest: seq<Tree>, input: seq<Token>, consumed: seq<Token>, rule: nat)
    requires Sound(stack, forest, input, consumed) && Tokens(input) && input != []
    requires Action(stack[|stack| - 1].state, input[0].major) == REDUCE + rule
    ensures rule < 28 && ReducedIn(rule, stack[|stack| - 1].state) && Handle(stack, rule)
    ensures Sound(ReducedStack(stack, rule), ReducedForest(forest, rule), input, consumed)
  {
    Spelled(stack, rule, input[0].major);
    var n := |stack| - |Rhs(rule)|;
    var t := Branch(rule, forest[n - 1..]);
    var e := Entry(Goto(stack[n - 1].state, Lhs(rule)), Lhs(rule), Act(rule, Minors(stack[n..])));
    ReducedTree(stack, forest, rule, input[0].major);
    ReducedPath(stack, rule, e.minor);
    TreesReplaced(stack, forest, n, e, t);
    YieldsReduced(forest, |Rhs(rule)|, rule);
  }

  lemma {:induction false} YieldsReduced(forest: seq<Tree>, k: nat, rule: nat)
    requires k <= |forest|
    ensures Yields(forest[..|forest| - k] + [Branch(rule, forest[|forest| - k..])]) == Yields(forest)
  {
    var kids, rest := forest[|forest| - k..], forest[..|forest| - k];
    assert rest + kids == forest;
    YieldsAppend(rest, kids);
    YieldsPush(rest, Branch(rule, kids));
  }

  lemma BaseInRange(stack: Stack, rule: nat)
    requires Path(stack) && rule < 28 && Handle(stack, rule) && ReducedIn(rule, stack[|stack| - 1].state)
    ensures 0 <= stack[|stack| - 1 - |Rhs(rule)|].state <= 34
  {
    var i := |stack| - 1 - |Rhs(rule)|;
    if stack[i].state != 0 {
      Below(stack, i);
      StatesAre(stack[i].state, stack[i - 1].state);
    }
    GotoStates(stack[i].state, rule);
  }

  lemma GotoStates(p: int, rule: nat)
    requires GotoExists(p, rule)
    ensures p <= 34
  {
  }
}
