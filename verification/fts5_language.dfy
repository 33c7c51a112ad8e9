/** The language of the FTS5 parser (fts5parse.c): the queries it accepts are exactly those with
    a derivation that respects the precedences, the value is that of the derivation, and a
    bounded stack overflows exactly when the derivation needs more entries than it has. */
module Fts5Language {
  import opened Options
  import opened LemonDriver
  import opened Fts5Tables
  import opened Fts5Grammar
  import opened Fts5Automaton
  import opened Fts5Soundness
  import opened Fts5Runs
  import opened Fts5Completeness

  /** One situation leads to the other in some number of turns. */
  ghost predicate LeadsTo(a: ParseState, b: ParseState) {
    exists n: nat :: Iter(QueryParser(), None, a, n) == b
  }

  lemma LeadsToTrans(a: ParseState, b: ParseState, c: ParseState)
    requires LeadsTo(a, b) && LeadsTo(b, c)
    ensures LeadsTo(a, c)
  {
    var i: nat :| Iter(QueryParser(), None, a, i) == b;
    var j: nat :| Iter(QueryParser(), None, b, j) == c;
    IterAdd(QueryParser(), None, a, i, j);
  }

  lemma LeadsToStep(a: ParseState)
    requires !Halted(a)
    ensures LeadsTo(a, Step(QueryParser(), None, a))
  {
    IterOnce(QueryParser(), None, a, 1);
    assert Iter(QueryParser(), None, a, 1) == Step(QueryParser(), None, a);
  }

  lemma ShiftIsStep(a: ParseState, b: ParseState)
    requires ShiftsTo(a, b)
    ensures !Halted(a) && Step(QueryParser(), None, a) == b
  {
    ActionIs(TopState(a.c), a.input[0].major);
  }

  lemma ReduceIsStep(a: ParseState, b: ParseState, rule: nat)
    requires ReducesTo(a, b, rule)
    ensures !Halted(a) && Step(QueryParser(), None, a) == b
  {
    var n := |a.c.stack| - 1;
    Below(a.c.stack, n);
    StatesAre(a.c.stack[n].state, a.c.stack[n - 1].state);
    ActionIs(TopState(a.c), a.input[0].major);
    Spelled(a.c.stack, rule, a.input[0].major);
    StepOnReduce(None, a, rule);
  }

  lemma LeadsToIsClosed()
    ensures Closed((a, b) => LeadsTo(a, b))
  {
    forall a: ParseState ensures LeadsTo(a, a) {
      assert Iter(QueryParser(), None, a, 0) == a;
    }
    forall a: ParseState, b: ParseState, c: ParseState | LeadsTo(a, b) && LeadsTo(b, c) ensures LeadsTo(a, c) {
      LeadsToTrans(a, b, c);
    }
    forall a: ParseState, b: ParseState | ShiftsTo(a, b) ensures LeadsTo(a, b) {
      ShiftIsStep(a, b);
      LeadsToStep(a);
    }
    forall a: ParseState, b: ParseState, rule: nat | ReducesTo(a, b, rule) ensures LeadsTo(a, b) {
      ReduceIsStep(a, b, rule);
      LeadsToStep(a);
    }
  }

  lemma StartIsExpected(t: Tree)
    requires Root(t) == INPUT
    ensures ExpectedAt(Root(t), Level(t), 0, 0) && Next(0, Root(t)) == ACCEPT && Action(ACCEPT, 0) == ACCEPT
  {
  }

  /** The driver on the tokens of a derivation, up to the accept action. */
  lemma BuildsInput(t: Tree, query: seq<Token>, v: Minor, end: Token)
    requires AcceptedBy(t, query, v) && end.major == 0
    ensures LeadsTo(Situation(Initial(QueryParser()), query + [end]),
                    Situation(Built(Initial(QueryParser()), t), [end]))
  {
    LeadsToIsClosed();
    StartIsExpected(t);
    Takes(t, 0, 0);
    Builds((a, b) => LeadsTo(a, b), t, Initial(QueryParser()), [end]);
  }

  lemma {:induction false} AcceptsFrom(t: Tree, end: Token)
    requires Root(t) == INPUT && end.major == 0
    ensures var c := Built(Initial(QueryParser()), t);
            var s := Situation(c, [end]);
            && !Halted(s)
            && Step(QueryParser(), None, s) == Situation(Config(c.stack[..1], c.peak, Accepted(Value(t))), [end])
  {
    StartIsExpected(t);
    ActionIs(ACCEPT, 0);
  }

  /** Completeness: a query with a derivation is accepted with the derivation's value, and the
      high-water mark of the stack is one more than what the derivation needs. */
  lemma {:induction false} DerivableIsAccepted(t: Tree, query: seq<Token>, v: Minor, end: Token)
    requires AcceptedBy(t, query, v) && end.major == 0
    ensures Halts(QueryParser(), None, Initial(QueryParser()), query + [end])
    ensures var c := Exec(QueryParser(), None, Initial(QueryParser()), query + [end]);
            c.status == Accepted(v) && c.peak == 1 + Need(t)
  {
    BuildsInput(t, query, v, end);
    AcceptsFrom(t, end);
    var start := Situation(Initial(QueryParser()), query + [end]);
    var last := Situation(Built(Initial(QueryParser()), t), [end]);
    LeadsToStep(last);
    LeadsToTrans(start, last, Step(QueryParser(), None, last));
    var n: nat :| Iter(QueryParser(), None, start, n) == Step(QueryParser(), None, last);
    ExecIs(QueryParser(), None, start.c, query + [end], n);
    NeedIsPositive(t);
  }

  lemma {:induction false} NeedIsPositive(t: Tree)
    ensures Need(t) >= 1
  {
  }

  /** The run of a parser with the given capacity on a query followed by end of input. */
  ghost function Outcome(cap: Capacity, query: seq<Token>, end: Token): Status<Minor>
    requires Tokens(query) && NoEnd(query) && end.major == 0
  {
    AlwaysEnds(cap, query + [end]);
    Exec(QueryParser(), cap, Initial(QueryParser()), query + [end]).status
  }

  /** The accepted language and the computed value, for a stack without bound: accepted with a
      value if and only if derivable, in precedence order, with that value. */
  lemma AcceptsIffDerivable(query: seq<Token>, v: Minor, end: Token)
    requires Tokens(query) && NoEnd(query) && end.major == 0
    ensures Outcome(None, query, end) == Accepted(v) <==> exists t :: AcceptedBy(t, query, v)
    ensures Outcome(None, query, end).Accepted? || Outcome(None, query, end).SyntaxError?
  {
    AlwaysEnds(None, query + [end]);
    AcceptanceIsSound(None, query, end);
    if t :| AcceptedBy(t, query, v) {
      DerivableIsAccepted(t, query, v, end);
    }
  }

  /** Precedence makes the grammar unambiguous as to values and stack use. */
  lemma {:induction false} DerivationsAgree(t: Tree, t': Tree, query: seq<Token>, v: Minor, v': Minor)
    requires AcceptedBy(t, query, v) && AcceptedBy(t', query, v')
    ensures v == v' && Need(t) == Need(t')
  {
    var end := Token(0, "");
    DerivableIsAccepted(t, query, v, end);
    DerivableIsAccepted(t', query, v', end);
  }

  /** The bounded parser accepts exactly when a derivation exists that fits its stack, and
      overflows on every derivable query whose derivation does not. */
  lemma BoundedAcceptsIff(cap: nat, query: seq<Token>, v: Minor, end: Token)
    requires cap >= 1 && Tokens(query) && NoEnd(query) && end.major == 0
    ensures Outcome(Some(cap), query, end) == Accepted(v) <==> exists t :: AcceptedBy(t, query, v) && 1 + Need(t) <= cap
    ensures (exists t :: AcceptedBy(t, query, v) && 1 + Need(t) > cap) ==> Outcome(Some(cap), query, end) == Overflowed
  {
    var tokens := query + [end];
    AlwaysEnds(None, tokens);
    AlwaysEnds(Some(cap), tokens);
    AcceptanceIsSound(None, query, end);
    BoundedExec(QueryParser(), cap, Initial(QueryParser()), tokens);
    if t :| AcceptedBy(t, query, v) {
      DerivableIsAccepted(t, query, v, end);
      forall t' | AcceptedBy(t', query, v) ensures Need(t') == Need(t) {
        DerivationsAgree(t, t', query, v, v);
      }
    }
  }
}
