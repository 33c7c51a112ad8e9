/** What every reachable configuration of the FTS5 parser satisfies (fts5parse.c): the stack
    is a path of the automaton, it spells the right-hand side of the rule being reduced, it is
    the frontier of a derivation of the input shifted so far, and the loop terminates. */
module Fts5Automaton {
  import opened LemonDriver
  import opened Fts5Tables
  import opened Fts5Grammar

  type Stack = seq<Entry<Minor>>

  // ---------------------------------------------------------------- transitions

  /** The state entered from `p` over symbol `x`, or -1; a shift-reduce enters a pending reduce. */
  function Next(p: int, x: int): int {
    if x < INPUT then (if Action(p, x) <= 79 then ShiftedState(FTS5(), Action(p, x)) else -1) else Goto(p, x)
  }

  /** The entries that can be stacked are exactly the transitions of the tables. */
  lemma TransitionsIff(p: int, x: int, q: int)
    requires 0 <= p <= 34 && 0 <= x <= STAROPT && 0 <= q
    ensures Next(p, x) == q <==> Pred(q, p) && Acc(q) == x
  {
  }

  ghost predicate LinkAt(stack: Stack, i: int)
    requires 1 <= i < |stack|
  {
    Pred(stack[i].state, stack[i - 1].state) && stack[i].major == Acc(stack[i].state)
  }

  /** The stack is a path of the automaton from state 0. */
  ghost predicate Path(stack: Stack) {
    && 0 < |stack|
    && stack[0].state == 0
    && forall i {:trigger LinkAt(stack, i)} :: 1 <= i < |stack| ==> LinkAt(stack, i)
  }

  /** Where the state is not the start state there is another entry below. */
  lemma Below(stack: Stack, i: int)
    requires Path(stack) && 0 <= i < |stack| && stack[i].state != 0
    ensures 1 <= i && LinkAt(stack, i)
  {
    if i > 0 {
      assert LinkAt(stack, i);
    }
  }

  /** The states in which rule `r` is reduced: one pending reduce or the states where it is
      the default. */
  predicate ReducedIn(r: nat, q: int) {
    match r
    case 0 => q == 20
    case 3 => q == 11
    case 7 => q == 29
    case 8 => q == 21
    case 12 => q == 6
    case 17 => q == 26
    case 18 => q == 25
    case 20 => q == 30
    case 21 => q == 33
    case 22 => q == 9
    case 27 => q == 11 || q == 12 || q == 14 || q == 15
    case _ => r < 28 && q == REDUCE + r
  }

  lemma ReduceStates(q: int, p: int, la: int, rule: nat)
    requires Pred(q, p) && 0 <= la < INPUT
    requires Action(q, la) == REDUCE + rule
    ensures rule < 28 && ReducedIn(rule, q)
  {
  }

  predicate GotoExists(p: int, rule: nat) {
    0 <= Goto(p, Lhs(rule)) && !(34 < Goto(p, Lhs(rule)) <= ERROR)
  }

  /** A complete item is recognised where its rule is reduced. */
  lemma CompleteItem(q: int, r: nat)
    requires r < 28 && ReducedIn(r, q)
    ensures if Rhs(r) == [] then forall p :: Pred(q, p) ==> GotoExists(q, r) else Item(q, r, |Rhs(r)|)
  {
  }

  /** The item before the dot is moved back over the symbol of `q`; with the dot at the start
      of the rule, the state has the goto for it. */
  predicate StepsBack(q: int, p: int, r: nat, i: nat)
    requires 0 < i && r < 28
  {
    && i <= |Rhs(r)| && Rhs(r)[i - 1] == Acc(q)
    && if i == 1 then GotoExists(p, r) else Item(p, r, i - 1)
  }

  lemma ItemStepColset(q: int, p: int, r: nat, i: nat)
    requires 0 < i && Item(q, r, i) && Pred(q, p) && 0 <= r < 7
    ensures StepsBack(q, p, r, i)
  {
  }

  lemma ItemStepExpr(q: int, p: int, r: nat, i: nat)
    requires 0 < i && Item(q, r, i) && Pred(q, p) && 7 <= r < 13
    ensures StepsBack(q, p, r, i)
  {
  }

  lemma ItemStepCnear(q: int, p: int, r: nat, i: nat)
    requires 0 < i && Item(q, r, i) && Pred(q, p) && 13 <= r < 17
    ensures StepsBack(q, p, r, i)
  {
  }

  lemma ItemStepNear(q: int, p: int, r: nat, i: nat)
    requires 0 < i && Item(q, r, i) && Pred(q, p) && 17 <= r < 20
    ensures StepsBack(q, p, r, i)
  {
  }

  lemma ItemStepPhrase(q: int, p: int, r: nat, i: nat)
    requires 0 < i && Item(q, r, i) && Pred(q, p) && 20 <= r < 28
    ensures StepsBack(q, p, r, i)
  {
  }

  /** The items of a state fix its symbol and the items of every state that can be below it. */
  lemma ItemStep(q: int, p: int, r: nat, i: nat)
    requires 0 < i && Item(q, r, i) && Pred(q, p)
    ensures r < 28 && StepsBack(q, p, r, i)
  {
    if r < 7 {
      ItemStepColset(q, p, r, i);
    } else if r < 13 {
      ItemStepExpr(q, p, r, i);
    } else if r < 17 {
      ItemStepCnear(q, p, r, i);
    } else if r < 20 {
      ItemStepNear(q, p, r, i);
    } else if r < 28 {
      ItemStepPhrase(q, p, r, i);
    }
  }

  lemma ItemNotAtStart(r: nat, i: nat)
    requires 0 < i
    ensures !Item(0, r, i)
  {
  }

  lemma MajorsSnoc(stack: Stack, a: nat, top: nat)
    requires a <= top < |stack|
    ensures Majors(stack[a..top + 1]) == Majors(stack[a..top]) + [stack[top].major]
  {
    assert stack[a..top + 1] == stack[a..top] + [stack[top]];
  }

  lemma PrefixSnoc(xs: seq<int>, i: nat)
    requires 0 < i <= |xs|
    ensures xs[..i] == xs[..i - 1] + [xs[i - 1]]
  {
  }

  lemma ItemBelow(stack: Stack, top: nat, r: nat, i: nat)
    requires Path(stack) && 0 < i && top < |stack| && Item(stack[top].state, r, i)
    ensures r < 28 && i <= |Rhs(r)| && 1 <= top
    ensures stack[top].major == Rhs(r)[i - 1]
    ensures if i == 1 then GotoExists(stack[top - 1].state, r) else Item(stack[top - 1].state, r, i - 1)
  {
    ItemNotAtStart(r, i);
    Below(stack, top);
    ItemStep(stack[top].state, stack[top - 1].state, r, i);
  }

  /** The entries up to `top` spell what the top state has recognised of the rule. */
  lemma {:induction false} SpelledBy(stack: Stack, top: nat, r: nat, i: nat)
    requires Path(stack) && 0 < i && top < |stack| && Item(stack[top].state, r, i)
    ensures r < 28 && i <= |Rhs(r)| && i <= top
    ensures Majors(stack[top + 1 - i..top + 1]) == Rhs(r)[..i]
    ensures GotoExists(stack[top - i].state, r)
  {
    ItemBelow(stack, top, r, i);
    if i > 1 {
      SpelledBy(stack, top - 1, r, i - 1);
    } else {
      assert stack[top..top] == [];
    }
    MajorsSnoc(stack, top + 1 - i, top);
    PrefixSnoc(Rhs(r), i);
  }

  ghost predicate Handle(stack: Stack, rule: nat) {
    && |Rhs(rule)| < |stack|
    && Majors(stack[|stack| - |Rhs(rule)|..]) == Rhs(rule)
    && GotoExists(stack[|stack| - 1 - |Rhs(rule)|].state, rule)
  }

  /** Never stuck: the top of the stack spells the right-hand side of the rule to be reduced,
      the pop stays above the bottom entry, and the goto exists and is no shift-reduce. */
  lemma Spelled(stack: Stack, rule: nat, la: int)
    requires Path(stack) && 0 <= la < INPUT
    requires Action(stack[|stack| - 1].state, la) == REDUCE + rule
    ensures rule < 28 && ReducedIn(rule, stack[|stack| - 1].state) && Handle(stack, rule)
  {
    var n := |stack| - 1;
    Below(stack, n);
    ReduceStates(stack[n].state, stack[n - 1].state, la, rule);
    CompleteItem(stack[n].state, rule);
    var k := |Rhs(rule)|;
    if k > 0 {
      SpelledBy(stack, n, rule, k);
      assert stack[n + 1 - k..n + 1] == stack[|stack| - k..];
    }
  }
}
