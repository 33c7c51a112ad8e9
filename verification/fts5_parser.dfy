/** The loop that parses an FTS5 query: one call of the parser object for every token, the stack
    of 100 entries, and the finalizer (fts5_expr.c `sqlite3Fts5ExprNew`, fts5parse.c). */
module Fts5Parser {
  import opened Options
  import opened LemonDriver
  import opened LemonParser
  import opened Fts5Tables
  import opened Fts5Grammar
  import opened Fts5Soundness
  import opened Fts5Runs
  import opened Fts5Language
  import opened Fts5Ownership

  const CAPACITY: Capacity := Some(100)

  /** Between two calls, after `tokens`. */
  ghost predicate Waiting(tokens: seq<Token>, c: Config<Minor>) {
    exists forest :: Sane(Situation(c, []), forest, tokens)
  }

  lemma NextToken(tokens: seq<Token>, c: Config<Minor>, token: Token)
    requires Waiting(tokens, c) && 0 <= token.major < INPUT
    ensures Ongoing(tokens + [token], Situation(c, [token]))
  {
    var forest :| Sane(Situation(c, []), forest, tokens);
    assert Sane(Situation(c, [token]), forest, tokens);
  }

  /** One call of the parser with the next token ends, and well. */
  lemma CallEnds(tokens: seq<Token>, c: Config<Minor>, token: Token)
    requires Waiting(tokens, c) && 0 <= token.major < INPUT
    ensures var s := Situation(c, [token]);
            var e := Iter(QueryParser(), CAPACITY, s, Measure(s));
            && Halted(e) && !e.c.status.Stuck?
            && (e.c.status.Running? ==> Waiting(tokens + [token], e.c))
  {
    var s := Situation(c, [token]);
    NextToken(tokens, c, token);
    RunEndsWell(CAPACITY, tokens + [token], s);
    var e := Iter(QueryParser(), CAPACITY, s, Measure(s));
    var forest, consumed :| GoodEnd(CAPACITY, tokens + [token], e, forest, consumed);
    if e.c.status.Running? {
      assert e == Situation(e.c, []);
      assert Sane(Situation(e.c, []), forest, tokens + [token]);
    }
  }

  /** Everything built so far has been used, or is owned by a stack slot. */
  ghost predicate Books(events: seq<Event<Minor>>, stack: seq<Entry<Minor>>) {
    forall x {:trigger MadeBy(events, x)} :: MadeBy(events, x) == UsedBy(events, x) + Owned(stack, x)
  }

  lemma CallKeepsBooks(tokens: seq<Token>, c: Config<Minor>, token: Token, events: seq<Event<Minor>>)
    requires Waiting(tokens, c) && 0 <= token.major < INPUT && Books(events, c.stack)
    ensures var s := Situation(c, [token]);
            Books(events + Trace(QueryParser(), CAPACITY, s, Measure(s)),
                  Iter(QueryParser(), CAPACITY, s, Measure(s)).c.stack)
  {
    var s := Situation(c, [token]);
    var calls := Trace(QueryParser(), CAPACITY, s, Measure(s));
    var stack := Iter(QueryParser(), CAPACITY, s, Measure(s)).c.stack;
    NextToken(tokens, c, token);
    forall x ensures MadeBy(events + calls, x) == UsedBy(events + calls, x) + Owned(stack, x) {
      LedgerOfRun(CAPACITY, tokens + [token], s, Measure(s), x);
      MadeByAppend(events, calls, x);
      assert MadeBy(events, x) == UsedBy(events, x) + Owned(c.stack, x);
    }
  }

  lemma StartWaits()
    ensures Waiting([], Initial(QueryParser())) && Books([], Initial(QueryParser()).stack)
  {
    var c := Initial(QueryParser());
    assert Sane(Situation(c, []), [], []);
    forall x ensures MadeBy([], x) == UsedBy([], x) + Owned(c.stack, x) {
      OwnedOne(c.stack[0], x);
    }
  }

  lemma {:induction false} NothingLeft(events: seq<Event<Minor>>, stack: seq<Entry<Minor>>, x: Minor)
    requires Books(events, stack) && stack != [] && !Owning(stack[0].major)
    ensures MadeBy(events + DestroyAll(stack[1..]), x) == UsedBy(events + DestroyAll(stack[1..]), x)
  {
    Finalized(events, stack, x);
  }

  lemma OneMoreCall(c: Config<Minor>, done: seq<Token>, token: Token)
    requires Halts(QueryParser(), CAPACITY, c, done)
    requires Halts(QueryParser(), CAPACITY, Exec(QueryParser(), CAPACITY, c, done), [token])
    ensures Halts(QueryParser(), CAPACITY, c, done + [token])
    ensures Exec(QueryParser(), CAPACITY, c, done + [token])
         == Exec(QueryParser(), CAPACITY, Exec(QueryParser(), CAPACITY, c, done), [token])
  {
    ExecAppend(QueryParser(), CAPACITY, c, done, [token]);
  }

  lemma NoMoreCalls(c: Config<Minor>, done: seq<Token>, rest: seq<Token>)
    requires Halts(QueryParser(), CAPACITY, c, done)
    requires rest == [] || !Exec(QueryParser(), CAPACITY, c, done).status.Running?
    ensures Halts(QueryParser(), CAPACITY, c, done + rest)
    ensures Exec(QueryParser(), CAPACITY, c, done + rest) == Exec(QueryParser(), CAPACITY, c, done)
  {
    var d := Exec(QueryParser(), CAPACITY, c, done);
    assert Halted(Iter(QueryParser(), CAPACITY, Situation(d, rest), 0));
    ExecIs(QueryParser(), CAPACITY, d, rest, 0);
    ExecAppend(QueryParser(), CAPACITY, c, done, rest);
  }

  /** Where the loop stands when the tokens of `done` have been given to the parser. */
  ghost predicate Given(done: seq<Token>, c: Config<Minor>, events: seq<Event<Minor>>) {
    && Halts(QueryParser(), CAPACITY, Initial(QueryParser()), done)
    && c == Exec(QueryParser(), CAPACITY, Initial(QueryParser()), done)
    && (c.status.Running? ==> Waiting(done, c))
    && c.stack != [] && c.stack[0].major == 0
    && Books(events, c.stack)
  }

  lemma NothingGiven()
    ensures Given([], Initial(QueryParser()), [])
  {
    StartWaits();
    ExecIs(QueryParser(), CAPACITY, Initial(QueryParser()), [], 0);
  }

  lemma TokenGiven(done: seq<Token>, c: Config<Minor>, events: seq<Event<Minor>>, token: Token)
    requires Given(done, c, events) && c.status.Running? && 0 <= token.major < INPUT
    ensures var s := Situation(c, [token]);
            var e := Iter(QueryParser(), CAPACITY, s, Measure(s));
            && Halted(e) && !e.c.status.Stuck? && Halts(QueryParser(), CAPACITY, c, [token])
            && Given(done + [token], Exec(QueryParser(), CAPACITY, c, [token]),
                     events + Trace(QueryParser(), CAPACITY, s, Measure(s)))
  {
    var s := Situation(c, [token]);
    CallEnds(done, c, token);
    CallKeepsBooks(done, c, token, events);
    BottomStays(QueryParser(), CAPACITY, s, Measure(s));
    ExecIs(QueryParser(), CAPACITY, c, [token], Measure(s));
    OneMoreCall(Initial(QueryParser()), done, token);
  }

  lemma AllGiven(tokens: seq<Token>, i: nat, c: Config<Minor>, events: seq<Event<Minor>>)
    requires i <= |tokens| && Given(tokens[..i], c, events) && (i == |tokens| || !c.status.Running?)
    ensures Halts(QueryParser(), CAPACITY, Initial(QueryParser()), tokens)
    ensures c == Exec(QueryParser(), CAPACITY, Initial(QueryParser()), tokens)
  {
    assert tokens[..i] + tokens[i..] == tokens;
    NoMoreCalls(Initial(QueryParser()), tokens[..i], tokens[i..]);
  }

  lemma {:induction false} AllUsed(events: seq<Event<Minor>>, stack: seq<Entry<Minor>>)
    requires Books(events, stack) && stack != [] && stack[0].major == 0
    ensures forall x {:trigger MadeBy(events + DestroyAll(stack[1..]), x)} ::
              MadeBy(events + DestroyAll(stack[1..]), x) == UsedBy(events + DestroyAll(stack[1..]), x)
  {
    forall x ensures MadeBy(events + DestroyAll(stack[1..]), x) == UsedBy(events + DestroyAll(stack[1..]), x) {
      NothingLeft(events, stack, x);
    }
  }

  /** A parser for queries, with the stack of 100 entries. */
  ghost predicate IsQueryParser(p: Parser<Minor>)
    reads p, p.yystack
  {
    p.Valid() && p.m == QueryParser() && p.Cap() == CAPACITY
  }

  method Feed(p: Parser<Minor>, ghost done: seq<Token>, token: Token)
    requires IsQueryParser(p) && p.status.Running? && 0 <= token.major < INPUT
    requires Given(done, p.Abs(), p.events)
    modifies p, p.yystack
    ensures IsQueryParser(p) && (p.yystack == old(p.yystack) || fresh(p.yystack))
    ensures Given(done + [token], p.Abs(), p.events)
  {
    ghost var c, n := p.Abs(), Measure(Situation(p.Abs(), [token]));
    TokenGiven(done, c, p.events, token);
    p.Parse(token, n);
  }

  /** Parses a query: the calls one after another come to the outcome of the run on the whole
      input, and when the parser has been freed every value it built has been used once. */
  method ParseQuery(query: seq<Token>, end: Token) returns (status: Status<Minor>, ghost events: seq<Event<Minor>>)
    requires Tokens(query) && NoEnd(query) && end.major == 0
    ensures status == Outcome(CAPACITY, query, end)
    ensures forall x {:trigger MadeBy(events, x)} :: MadeBy(events, x) == UsedBy(events, x)
  {
    var tokens := query + [end];
    var p := new Parser(QueryParser(), Fixed, DEPTH);
    NothingGiven();
    assert tokens[..0] == [];
    var i := 0;
    while i < |tokens| && p.status.Running?
      invariant 0 <= i <= |tokens| && fresh(p) && fresh(p.yystack)
      invariant IsQueryParser(p)
      invariant Given(tokens[..i], p.Abs(), p.events)
    {
      assert tokens[..i] + [tokens[i]] == tokens[..i + 1];
      Feed(p, tokens[..i], tokens[i]);
      i := i + 1;
    }
    AllGiven(tokens, i, p.Abs(), p.events);
    AllUsed(p.events, p.Stack());
    status := p.status;
    p.Finalize();
    events := p.events;
  }
}
