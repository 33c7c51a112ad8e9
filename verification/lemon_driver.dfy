/** The push-down automaton of lempar.c as a transition function on stacks: one step is one
    turn of the `while(1)` loop of `Parse`. */
module LemonDriver {
  import opened Options
  import opened LemonTables

  datatype Token = Token(major: int, text: string)

  /** A stack slot: a state number (or a pending reduce action), the symbol, its value. */
  datatype Entry<V> = Entry(state: int, major: int, minor: V)

  /** A parser: its tables, how a token becomes a semantic value, the reduce actions as
      functions of the right-hand side's values, and the value of the unused bottom slot. */
  datatype Machine<!V> = Machine(T: Tables, lift: Token -> V, act: (nat, seq<V>) -> V, bottom: V)

  /** Running: more input can be taken.  Stuck: one of the driver's asserts has failed. */
  datatype Status<V> =
    | Running
    | Accepted(value: V)
    | SyntaxError(token: Token)
    | Overflowed
    | Stuck

  /** `peak` is the high-water mark of the stack, in entries. */
  datatype Config<V> = Config(stack: seq<Entry<V>>, peak: nat, status: Status<V>)

  /** A configuration and the input not yet shifted; the first token is the lookahead. */
  datatype Situation<V> = Situation(c: Config<V>, input: seq<Token>)

  /** The number of entries the stack may hold; None for a stack without bound. */
  type Capacity = Option<nat>

  predicate Fits(cap: Capacity, n: nat) {
    cap.None? || n <= cap.value
  }

  function Max(a: nat, b: nat): nat { if a < b then b else a }

  function Initial<V>(m: Machine<V>): Config<V> {
    Config([Entry(0, 0, m.bottom)], 1, Running)
  }

  predicate Halted<V>(s: Situation<V>) {
    s.input == [] || !s.c.status.Running? || s.c.stack == []
  }

  function Stop<V>(c: Config<V>, status: Status<V>): Config<V> {
    c.(status := status)
  }

  /** Overflow pops every entry but the bottom one. */
  function Overflow<V>(c: Config<V>): Config<V>
    requires c.stack != []
  {
    c.(stack := c.stack[..1], status := Overflowed)
  }

  function Push<V>(c: Config<V>, e: Entry<V>): Config<V> {
    Config(c.stack + [e], Max(c.peak, |c.stack| + 1), c.status)
  }

  /** The state number stored by a shift; a shift-reduce becomes a pending reduce. */
  function ShiftedState(T: Tables, action: int): int {
    if action > T.maxShift then action + T.minReduce - T.minShiftReduce else action
  }

  function Shift<V>(m: Machine<V>, cap: Capacity, c: Config<V>, action: int, token: Token): Config<V>
    requires c.stack != []
  {
    if !Fits(cap, |c.stack| + 1) then Overflow(c)
    else Push(c, Entry(ShiftedState(m.T, action), token.major, m.lift(token)))
  }

  function Minors<V>(es: seq<Entry<V>>): (vs: seq<V>)
    ensures |vs| == |es|
    ensures forall i :: 0 <= i < |es| ==> vs[i] == es[i].minor
  {
    seq(|es|, i requires 0 <= i < |es| => es[i].minor)
  }

  function Majors<V>(es: seq<Entry<V>>): (xs: seq<int>)
    ensures |xs| == |es|
    ensures forall i :: 0 <= i < |es| ==> xs[i] == es[i].major
  {
    seq(|es|, i requires 0 <= i < |es| => es[i].major)
  }

  /** Reduce by a rule: run its action on the popped values, look up the goto, push. */
  function Reduce<V>(m: Machine<V>, c: Config<V>, rule: nat): Config<V>
    requires c.stack != []
  {
    if !(rule < |m.T.ruleNRhs| && rule < |m.T.ruleLhs|) then Stop(c, Stuck)
    else
      var size := -m.T.ruleNRhs[rule];
      if !(0 <= size < |c.stack|) then Stop(c, Stuck)
      else
        var base := c.stack[..|c.stack| - size];
        var value := m.act(rule, Minors(c.stack[|c.stack| - size..]));
        var lhs := m.T.ruleLhs[rule];
        match FindReduceAction(m.T, base[|base| - 1].state, lhs)
        case None => Stop(c, Stuck)
        case Some(next) =>
          if m.T.maxShift < next <= m.T.maxShiftReduce || next == m.T.errorAction then Stop(c, Stuck)
          else Push(c.(stack := base), Entry(next, lhs, value))
  }

  /** A reduction whose table entries are known. */
  lemma ReduceAs<V>(m: Machine<V>, c: Config<V>, rule: nat, size: nat, lhs: int, next: int)
    requires rule < |m.T.ruleNRhs| && rule < |m.T.ruleLhs| && size < |c.stack|
    requires -m.T.ruleNRhs[rule] == size && m.T.ruleLhs[rule] == lhs
    requires FindReduceAction(m.T, c.stack[|c.stack| - 1 - size].state, lhs) == Some(next)
    requires !(m.T.maxShift < next <= m.T.maxShiftReduce) && next != m.T.errorAction
    ensures Reduce(m, c, rule)
         == Push(c.(stack := c.stack[..|c.stack| - size]),
                 Entry(next, lhs, m.act(rule, Minors(c.stack[|c.stack| - size..]))))
  {
  }

  /** The bottom entry must be all that is left when the parse is accepted. */
  function Accept<V>(c: Config<V>): Config<V>
    requires c.stack != []
  {
    var top := c.stack[|c.stack| - 1];
    if |c.stack| == 2 then c.(stack := c.stack[..1], status := Accepted(top.minor)) else Stop(c, Stuck)
  }

  predicate IsEpsilon(T: Tables, rule: nat) {
    rule < |T.ruleNRhs| && T.ruleNRhs[rule] == 0
  }

  /** One turn of the driver loop, once the action is known. */
  function StepOn<V>(m: Machine<V>, cap: Capacity, s: Situation<V>, action: int): Situation<V>
    requires !Halted(s)
  {
    var c := s.c;
    if action >= m.T.minReduce then
      var rule: nat := action - m.T.minReduce;
      if IsEpsilon(m.T, rule) && !Fits(cap, |c.stack| + 1) then s.(c := Overflow(c))
      else s.(c := Reduce(m, c, rule))
    else if action <= m.T.maxShiftReduce then
      var c' := Shift(m, cap, c, action, s.input[0]);
      Situation(c', if c'.status.Running? then s.input[1..] else s.input)
    else if action == m.T.acceptAction then s.(c := Accept(c))
    else if action == m.T.errorAction then s.(c := Stop(c, SyntaxError(s.input[0])))
    else s.(c := Stop(c, Stuck))
  }

  /** The action chosen by the top state and the lookahead token. */
  function NextAction<V>(m: Machine<V>, s: Situation<V>): Option<int>
    requires !Halted(s)
  {
    FindShiftAction(m.T, s.input[0].major, s.c.stack[|s.c.stack| - 1].state)
  }

  /** One turn of the driver loop. */
  function Step<V>(m: Machine<V>, cap: Capacity, s: Situation<V>): Situation<V>
    requires !Halted(s)
  {
    match NextAction(m, s)
    case None => s.(c := Stop(s.c, Stuck))
    case Some(action) => StepOn(m, cap, s, action)
  }

  // ---------------------------------------------------------------- runs

  function Iter<V>(m: Machine<V>, cap: Capacity, s: Situation<V>, n: nat): Situation<V>
    decreases n
  {
    if n == 0 || Halted(s) then s else Iter(m, cap, Step(m, cap, s), n - 1)
  }

  /** The driver stops taking turns on this input. */
  ghost predicate Halts<V>(m: Machine<V>, cap: Capacity, c: Config<V>, input: seq<Token>) {
    exists n: nat :: Halted(Iter(m, cap, Situation(c, input), n))
  }

  /** The configuration in which the driver stops. */
  ghost function Exec<V>(m: Machine<V>, cap: Capacity, c: Config<V>, input: seq<Token>): Config<V>
    requires Halts(m, cap, c, input)
  {
    var n: nat :| Halted(Iter(m, cap, Situation(c, input), n));
    Iter(m, cap, Situation(c, input), n).c
  }

  lemma {:induction false} IterAdd<V>(m: Machine<V>, cap: Capacity, s: Situation<V>, a: nat, b: nat)
    ensures Iter(m, cap, s, a + b) == Iter(m, cap, Iter(m, cap, s, a), b)
    decreases a
  {
    if a > 0 && !Halted(s) {
      IterAdd(m, cap, Step(m, cap, s), a - 1, b);
    }
  }

  lemma IterOnce<V>(m: Machine<V>, cap: Capacity, s: Situation<V>, n: nat)
    requires n > 0 && !Halted(s)
    ensures Iter(m, cap, s, n) == Iter(m, cap, Step(m, cap, s), n - 1)
  {
  }

  lemma {:induction false} IterHalted<V>(m: Machine<V>, cap: Capacity, s: Situation<V>, n: nat)
    requires Halted(s)
    ensures Iter(m, cap, s, n) == s
  {
  }

  lemma {:induction false} IterStays<V>(m: Machine<V>, cap: Capacity, s: Situation<V>, a: nat, b: nat)
    requires Halted(Iter(m, cap, s, a)) && Halted(Iter(m, cap, s, b))
    ensures Iter(m, cap, s, a) == Iter(m, cap, s, b)
  {
    if a <= b {
      IterAdd(m, cap, s, a, b - a);
    } else {
      IterAdd(m, cap, s, b, a - b);
    }
  }

  /** Any number of turns after which the driver has stopped gives the final configuration. */
  lemma {:induction false} ExecIs<V>(m: Machine<V>, cap: Capacity, c: Config<V>, input: seq<Token>, n: nat)
    requires Halted(Iter(m, cap, Situation(c, input), n))
    ensures Halts(m, cap, c, input)
    ensures Exec(m, cap, c, input) == Iter(m, cap, Situation(c, input), n).c
  {
    forall k: nat | Halted(Iter(m, cap, Situation(c, input), k))
      ensures Iter(m, cap, Situation(c, input), k) == Iter(m, cap, Situation(c, input), n)
    {
      IterStays(m, cap, Situation(c, input), k, n);
    }
  }

  /** Input that is never reached does not influence the run. */
  lemma {:induction false} IterMoreInput<V>(m: Machine<V>, cap: Capacity, c: Config<V>, a: seq<Token>, b: seq<Token>,
                                            n: nat)
    requires Halted(Iter(m, cap, Situation(c, a), n))
    ensures exists k: nat :: k <= n &&
              var s := Iter(m, cap, Situation(c, a), n);
              Iter(m, cap, Situation(c, a + b), k) == s.(input := s.input + b)
    decreases n
  {
    var s := Situation(c, a);
    if n == 0 || Halted(s) {
      assert Iter(m, cap, Situation(c, a + b), 0) == Iter(m, cap, s, n).(input := a + b);
    } else {
      var s' := Step(m, cap, s);
      assert (a + b)[1..] == a[1..] + b;
      assert Step(m, cap, Situation(c, a + b)) == s'.(input := s'.input + b);
      IterMoreInput(m, cap, s'.c, s'.input, b, n - 1);
      assert s' == Situation(s'.c, s'.input);
      var k: nat :| k <= n - 1 && Iter(m, cap, Situation(s'.c, s'.input + b), k)
        == Iter(m, cap, s', n - 1).(input := Iter(m, cap, s', n - 1).input + b);
      assert Iter(m, cap, Situation(c, a + b), k + 1) == Iter(m, cap, Step(m, cap, Situation(c, a + b)), k);
    }
  }

  /** Feeding tokens in two portions is feeding their concatenation: the push interface, one
      token a call, computes the run on the whole input. */
  lemma ExecAppend<V>(m: Machine<V>, cap: Capacity, c: Config<V>, a: seq<Token>, b: seq<Token>)
    requires Halts(m, cap, c, a)
    requires Halts(m, cap, Exec(m, cap, c, a), b)
    ensures Halts(m, cap, c, a + b)
    ensures Exec(m, cap, c, a + b) == Exec(m, cap, Exec(m, cap, c, a), b)
  {
    var n: nat :| Halted(Iter(m, cap, Situation(c, a), n));
    ExecIs(m, cap, c, a, n);
    var mid := Iter(m, cap, Situation(c, a), n);
    IterMoreInput(m, cap, c, a, b, n);
    var k: nat :| Iter(m, cap, Situation(c, a + b), k) == mid.(input := mid.input + b);
    var j: nat :| Halted(Iter(m, cap, Situation(mid.c, b), j));
    ExecIs(m, cap, mid.c, b, j);
    if mid.input == [] {
      assert mid.input + b == b;
      assert Iter(m, cap, Situation(c, a + b), k) == Situation(mid.c, b);
      IterAdd(m, cap, Situation(c, a + b), k, j);
      ExecIs(m, cap, c, a + b, k + j);
    } else {
      assert Halted(Situation(mid.c, b));
      ExecIs(m, cap, mid.c, b, 0);
      ExecIs(m, cap, c, a + b, k);
    }
  }

  /** Induction over the turns of a run: an invariant that every turn keeps while lowering its
      rank, or leaves in a good end, brings the driver to a good end. */
  lemma {:induction false} RunUntil<V(!new)>(m: Machine<V>, cap: Capacity, s: Situation<V>, n: nat,
      inv: Situation<V> -> bool, rank: Situation<V> -> nat, end: Situation<V> -> bool)
    requires inv(s) && rank(s) <= n
    requires forall x {:trigger inv(x)} :: inv(x) && Halted(x) ==> end(x)
    requires forall x {:trigger inv(x)} :: inv(x) && !Halted(x) ==>
               var y := Step(m, cap, x);
               0 < rank(x) && if y.c.status.Running? then inv(y) && rank(y) < rank(x) else end(y)
    ensures Halted(Iter(m, cap, s, n)) && end(Iter(m, cap, s, n))
    decreases n
  {
    if !Halted(s) {
      var y := Step(m, cap, s);
      if y.c.status.Running? {
        RunUntil(m, cap, y, n - 1, inv, rank, end);
      } else {
        IterHalted(m, cap, y, n - 1);
      }
    }
  }

  /** If the driver ends without a failed assert then none has failed before. */
  lemma {:induction false} NotStuckSoFar<V>(m: Machine<V>, cap: Capacity, s: Situation<V>, n: nat)
    requires !Iter(m, cap, s, n).c.status.Stuck?
    ensures !s.c.status.Stuck?
    decreases n
  {
    if n > 0 && !Halted(s) {
      NotStuckSoFar(m, cap, Step(m, cap, s), n - 1);
    }
  }

  // ---------------------------------------------------------------- bounded and unbounded stacks

  lemma StepPeak<V>(m: Machine<V>, cap: Capacity, s: Situation<V>)
    requires !Halted(s) && |s.c.stack| <= s.c.peak
    ensures var s' := Step(m, cap, s);
            && s.c.peak <= s'.c.peak && |s'.c.stack| <= s'.c.peak
            && s'.c.stack != [] && s'.c.stack[..1] == s.c.stack[..1]
            && (Fits(cap, s.c.peak) ==> Fits(cap, s'.c.peak))
  {
  }

  /** The bottom entry is never popped. */
  lemma {:induction false} BottomStays<V>(m: Machine<V>, cap: Capacity, s: Situation<V>, n: nat)
    requires s.c.stack != []
    ensures var stack := Iter(m, cap, s, n).c.stack;
            stack != [] && stack[0] == s.c.stack[0]
    decreases n
  {
    if n > 0 && !Halted(s) {
      BottomStaysOnce(m, cap, s);
      BottomStays(m, cap, Step(m, cap, s), n - 1);
    }
  }

  lemma BottomStaysOnce<V>(m: Machine<V>, cap: Capacity, s: Situation<V>)
    requires !Halted(s)
    ensures var stack := Step(m, cap, s).c.stack;
            stack != [] && stack[0] == s.c.stack[0]
  {
  }

  /** One turn: the bounded stack does what the unbounded one does unless the turn needs
      more entries than there are, and then it empties itself to its bottom entry. */
  lemma BoundedStep<V>(m: Machine<V>, cap: nat, s: Situation<V>)
    requires !Halted(s) && |s.c.stack| <= s.c.peak <= cap
    requires !Step(m, None, s).c.status.Stuck?
    ensures var u := Step(m, None, s);
            var b := Step(m, Some(cap), s);
            if u.c.peak <= cap then b == u
            else b.c == Overflow(s.c)
  {
  }

  /** A whole run: the bounded parser behaves as the unbounded one exactly as long as the
      unbounded one's high-water mark stays within the capacity, and overflows otherwise. */
  lemma {:induction false} BoundedRefinesUnbounded<V>(m: Machine<V>, cap: nat, s: Situation<V>, n: nat)
    requires s.c.stack != [] && |s.c.stack| <= s.c.peak <= cap
    requires !Iter(m, None, s, n).c.status.Stuck?
    ensures var u := Iter(m, None, s, n);
            var b := Iter(m, Some(cap), s, n);
            && s.c.peak <= u.c.peak
            && (u.c.peak <= cap ==> b == u)
            && (u.c.peak > cap ==> b.c.status == Overflowed && b.c.stack == s.c.stack[..1] && b.c.peak <= cap)
    decreases n
  {
    if n > 0 && !Halted(s) {
      var u := Step(m, None, s);
      StepPeak(m, None, s);
      BoundedStep(m, cap, s);
      PeakGrows(m, u, n - 1);
      if u.c.peak <= cap {
        BoundedRefinesUnbounded(m, cap, u, n - 1);
      } else {
        var b := Step(m, Some(cap), s);
        assert Halted(b);
        assert Iter(m, Some(cap), s, n) == b;
      }
    }
  }

  lemma {:induction false} PeakGrows<V>(m: Machine<V>, s: Situation<V>, n: nat)
    requires |s.c.stack| <= s.c.peak
    ensures s.c.peak <= Iter(m, None, s, n).c.peak
    decreases n
  {
    if n > 0 && !Halted(s) {
      StepPeak(m, None, s);
      PeakGrows(m, Step(m, None, s), n - 1);
    }
  }

  /** If the unbounded parser stops on an input without a failed assert then so does the bounded one; it overflows
      if and only if the unbounded parser's high-water mark exceeds the capacity. */
  lemma BoundedExec<V>(m: Machine<V>, cap: nat, c: Config<V>, input: seq<Token>)
    requires c.stack != [] && |c.stack| <= c.peak <= cap && !c.status.Overflowed?
    requires Halts(m, None, c, input) && !Exec(m, None, c, input).status.Stuck?
    ensures Halts(m, Some(cap), c, input)
    ensures var u := Exec(m, None, c, input);
            var b := Exec(m, Some(cap), c, input);
            if u.peak <= cap then b == u
            else b.status == Overflowed && b.stack == c.stack[..1]
    ensures Exec(m, None, c, input).status != Overflowed
  {
    var s := Situation(c, input);
    var n: nat :| Halted(Iter(m, None, s, n));
    ExecIs(m, None, c, input, n);
    BoundedRefinesUnbounded(m, cap, s, n);
    ExecIs(m, Some(cap), c, input, n);
    NeverOverflows(m, s, n);
  }

  lemma {:induction false} NeverOverflows<V>(m: Machine<V>, s: Situation<V>, n: nat)
    requires !s.c.status.Overflowed?
    ensures !Iter(m, None, s, n).c.status.Overflowed?
    decreases n
  {
    if n > 0 && !Halted(s) {
      NeverOverflows(m, Step(m, None, s), n - 1);
    }
  }

  // ---------------------------------------------------------------- calls out of the driver

  /** What the driver calls: the action of a rule, or the destructor of a popped entry, or of a
      token that is thrown away. */
  datatype Event<V> = Called(rule: nat, args: seq<V>, result: V) | Destroyed(entry: Entry<V>) | Rejected(token: Token)

  /** Destructors run from the top of the stack downwards. */
  function DestroyAll<V>(es: seq<Entry<V>>): seq<Event<V>> {
    if es == [] then [] else [Destroyed(es[|es| - 1])] + DestroyAll(es[..|es| - 1])
  }

  /** The call of a rule's action on the values at the top of the stack. */
  function RuleCall<V>(m: Machine<V>, stack: seq<Entry<V>>, rule: nat): Event<V>
    requires rule < |m.T.ruleNRhs| && 0 <= -m.T.ruleNRhs[rule] <= |stack|
  {
    var args := Minors(stack[|stack| + m.T.ruleNRhs[rule]..]);
    Called(rule, args, m.act(rule, args))
  }

  lemma RuleCallAs<V>(m: Machine<V>, stack: seq<Entry<V>>, rule: nat, size: nat)
    requires rule < |m.T.ruleNRhs| && -m.T.ruleNRhs[rule] == size <= |stack|
    ensures var args := Minors(stack[|stack| - size..]);
            RuleCall(m, stack, rule) == Called(rule, args, m.act(rule, args))
  {
  }

  function EventsOn<V>(m: Machine<V>, cap: Capacity, s: Situation<V>, action: int): seq<Event<V>>
    requires !Halted(s)
  {
    var next := StepOn(m, cap, s, action);
    if next.c.status.Overflowed? then DestroyAll(s.c.stack[1..])
    else if action >= m.T.minReduce then
      if next.c.status.Running? then [RuleCall(m, s.c.stack, action - m.T.minReduce)] else []
    else if next.c.status.SyntaxError? then [Rejected(s.input[0])]
    else []
  }

  /** One turn that reduces. */
  lemma ReductionTurn<V>(m: Machine<V>, cap: Capacity, s: Situation<V>, rule: nat)
    requires !Halted(s)
    ensures var action := m.T.minReduce + rule;
            if IsEpsilon(m.T, rule) && !Fits(cap, |s.c.stack| + 1) then
              && StepOn(m, cap, s, action) == s.(c := Overflow(s.c))
              && EventsOn(m, cap, s, action) == DestroyAll(s.c.stack[1..])
            else
              && StepOn(m, cap, s, action) == s.(c := Reduce(m, s.c, rule))
              && (Reduce(m, s.c, rule).status.Running? ==>
                    EventsOn(m, cap, s, action) == [RuleCall(m, s.c.stack, rule)])
  {
  }

  function StepEvents<V>(m: Machine<V>, cap: Capacity, s: Situation<V>): seq<Event<V>>
    requires !Halted(s)
  {
    match NextAction(m, s)
    case None => []
    case Some(action) => EventsOn(m, cap, s, action)
  }

  function Trace<V>(m: Machine<V>, cap: Capacity, s: Situation<V>, n: nat): seq<Event<V>>
    decreases n
  {
    if n == 0 || Halted(s) then [] else StepEvents(m, cap, s) + Trace(m, cap, Step(m, cap, s), n - 1)
  }

  /** `states[i]` and `calls[i]` are the situation and the calls made after i turns. */
  ghost predicate IsTurn<V>(m: Machine<V>, cap: Capacity, states: seq<Situation<V>>, calls: seq<seq<Event<V>>>, i: nat)
    requires i + 1 < |states| && |states| == |calls|
  {
    && !Halted(states[i]) && !states[i + 1].c.status.Stuck?
    && states[i + 1] == Step(m, cap, states[i])
    && calls[i + 1] == calls[i] + StepEvents(m, cap, states[i])
  }

  ghost predicate AreTurns<V>(m: Machine<V>, cap: Capacity, states: seq<Situation<V>>, calls: seq<seq<Event<V>>>) {
    && |states| == |calls|
    && forall i: nat {:trigger IsTurn(m, cap, states, calls, i)} ::
      i + 1 < |states| ==> IsTurn(m, cap, states, calls, i)
  }

  lemma TurnPrepended<V>(m: Machine<V>, cap: Capacity, states: seq<Situation<V>>, calls: seq<seq<Event<V>>>,
                         s: Situation<V>, before: seq<Event<V>>)
    requires AreTurns(m, cap, states, calls) && |states| > 0
    requires !Halted(s) && !states[0].c.status.Stuck?
    requires states[0] == Step(m, cap, s) && calls[0] == before + StepEvents(m, cap, s)
    ensures AreTurns(m, cap, [s] + states, [before] + calls)
    ensures ([s] + states)[|states|] == states[|states| - 1] && ([before] + calls)[|states|] == calls[|states| - 1]
  {
    var states', calls' := [s] + states, [before] + calls;
    forall i: nat | i + 1 < |states'| ensures IsTurn(m, cap, states', calls', i) {
      if i > 0 {
        assert IsTurn(m, cap, states, calls, i - 1);
        assert states'[i] == states[i - 1] && states'[i + 1] == states[i];
        assert calls'[i] == calls[i - 1] && calls'[i + 1] == calls[i];
      }
    }
  }

  lemma IterUnrolled<V>(m: Machine<V>, cap: Capacity, s: Situation<V>, n: nat)
    requires !Halted(s) && Halted(Iter(m, cap, s, n)) && !Iter(m, cap, s, n).c.status.Stuck?
    ensures n > 0 && !Step(m, cap, s).c.status.Stuck?
    ensures Iter(m, cap, Step(m, cap, s), n - 1) == Iter(m, cap, s, n)
  {
    NotStuckSoFar(m, cap, Step(m, cap, s), n - 1);
  }

  lemma Assoc<X>(a: seq<X>, b: seq<X>, c: seq<X>)
    ensures a + (b + c) == a + b + c
  {
  }

  lemma TraceUnrolled<V>(m: Machine<V>, cap: Capacity, s: Situation<V>, n: nat, before: seq<Event<V>>)
    requires !Halted(s) && n > 0
    ensures before + Trace(m, cap, s, n) == before + StepEvents(m, cap, s) + Trace(m, cap, Step(m, cap, s), n - 1)
  {
    Assoc(before, StepEvents(m, cap, s), Trace(m, cap, Step(m, cap, s), n - 1));
  }

  /** The turns of a run one by one, up to the turn in which it stops. */
  lemma {:induction false} TurnsOfRun<V>(m: Machine<V>, cap: Capacity, s: Situation<V>, n: nat, before: seq<Event<V>>)
    returns (states: seq<Situation<V>>, calls: seq<seq<Event<V>>>)
    requires Halted(Iter(m, cap, s, n)) && !Iter(m, cap, s, n).c.status.Stuck?
    ensures |states| > 0 && AreTurns(m, cap, states, calls)
    ensures states[0] == s && calls[0] == before
    ensures states[|states| - 1] == Iter(m, cap, s, n)
    ensures calls[|states| - 1] == before + Trace(m, cap, s, n)
    decreases n
  {
    if n == 0 || Halted(s) {
      states, calls := [s], [before];
      assert Iter(m, cap, s, n) == s && before + Trace(m, cap, s, n) == before;
    } else {
      var s', now := Step(m, cap, s), before + StepEvents(m, cap, s);
      IterUnrolled(m, cap, s, n);
      assert before + Trace(m, cap, s, n) == now + Trace(m, cap, s', n - 1) by { TraceUnrolled(m, cap, s, n, before); }
      var more, moreCalls := TurnsOfRun(m, cap, s', n - 1, now);
      TurnPrepended(m, cap, more, moreCalls, s, before);
      states, calls := [s] + more, [before] + moreCalls;
    }
  }

  /** What every turn keeps while the driver goes on holds however far it has gone. */
  lemma {:induction false} KeptByRun<V(!new)>(m: Machine<V>, cap: Capacity, s: Situation<V>, n: nat,
      inv: Situation<V> -> bool)
    requires inv(s)
    requires forall x {:trigger inv(x)} ::
      inv(x) && !Halted(x) && Step(m, cap, x).c.status.Running? ==> inv(Step(m, cap, x))
    requires Iter(m, cap, s, n).c.status.Running?
    ensures inv(Iter(m, cap, s, n))
    decreases n
  {
    if n == 0 || Halted(s) {
      assert Iter(m, cap, s, n) == s;
    } else {
      var next := Step(m, cap, s);
      IterOnce(m, cap, s, n);
      if next.c.status.Running? {
        KeptByRun(m, cap, next, n - 1, inv);
      } else {
        IterHalted(m, cap, next, n - 1);
      }
    }
  }

  lemma InputShrinks<V>(m: Machine<V>, cap: Capacity, s: Situation<V>)
    requires !Halted(s)
    ensures var s' := Step(m, cap, s); s'.input == s.input || |s'.input| == |s.input| - 1
  {
  }

  /** The number of turns of a run that reduce: they leave the input alone and the driver goes on. */
  function TurnsThatReduce<V>(m: Machine<V>, cap: Capacity, s: Situation<V>, n: nat): nat
    decreases n
  {
    if n == 0 || Halted(s) then 0
    else
      var s' := Step(m, cap, s);
      if !s'.c.status.Running? then 0
      else (if s'.input == s.input then 1 else 0) + TurnsThatReduce(m, cap, s', n - 1)
  }

  /** Amortised cost: if no turn raises a credit and every reduction spends some of it, then
      the credit at the start bounds the number of reductions of a run. */
  lemma {:induction false} AmortisedReductions<V(!new)>(m: Machine<V>, cap: Capacity, s: Situation<V>, n: nat,
      inv: Situation<V> -> bool, credit: Situation<V> -> nat)
    requires inv(s)
    requires forall x {:trigger inv(x)} :: inv(x) && !Halted(x) && Step(m, cap, x).c.status.Running? ==>
               var y := Step(m, cap, x);
               inv(y) && credit(y) <= credit(x) && (y.input == x.input ==> credit(y) < credit(x))
    ensures TurnsThatReduce(m, cap, s, n) <= credit(s)
    decreases n
  {
    if n > 0 && !Halted(s) {
      var y := Step(m, cap, s);
      if y.c.status.Running? {
        AmortisedReductions(m, cap, y, n - 1, inv, credit);
      }
    }
  }

  ghost predicate Adds<V(!new)>(f: seq<Event<V>> -> nat, a: seq<Event<V>>, b: seq<Event<V>>) {
    f(a + b) == f(a) + f(b)
  }

  /** `f` counts a concatenation of calls part by part. */
  ghost predicate Additive<V(!new)>(f: seq<Event<V>> -> nat) {
    f([]) == 0 && forall a, b {:trigger Adds(f, a, b)} :: Adds(f, a, b)
  }

  /** What `f` counts in the calls of a run, turn by turn. */
  function Total<V>(m: Machine<V>, cap: Capacity, s: Situation<V>, n: nat, f: seq<Event<V>> -> nat): nat
    decreases n
  {
    if n == 0 || Halted(s) then 0 else f(StepEvents(m, cap, s)) + Total(m, cap, Step(m, cap, s), n - 1, f)
  }

  /** One more turn. */
  lemma AddOne<V(!new)>(m: Machine<V>, cap: Capacity, s: Situation<V>, n: nat, f: seq<Event<V>> -> nat,
                        next: Situation<V>)
    requires Additive(f) && n > 0 && !Halted(s) && next == Step(m, cap, s)
    requires f(Trace(m, cap, next, n - 1)) == Total(m, cap, next, n - 1, f)
    ensures f(Trace(m, cap, s, n)) == Total(m, cap, s, n, f)
  {
    var first, rest := StepEvents(m, cap, s), Trace(m, cap, next, n - 1);
    assert Trace(m, cap, s, n) == first + rest;
    assert Adds(f, first, rest);
  }

  lemma {:induction false} TotalIsOfTrace<V(!new)>(m: Machine<V>, cap: Capacity, s: Situation<V>, n: nat,
      f: seq<Event<V>> -> nat)
    requires Additive(f)
    ensures f(Trace(m, cap, s, n)) == Total(m, cap, s, n, f)
    decreases n
  {
    if n == 0 || Halted(s) {
      assert Trace(m, cap, s, n) == [];
    } else {
      var next := Step(m, cap, s);
      TotalIsOfTrace(m, cap, next, n - 1, f);
      AddOne(m, cap, s, n, f, next);
    }
  }

  /** Double-entry bookkeeping over a run: if in every turn what is held plus what is made
      equals what is held afterwards plus what is used, then so it is over the whole run. */
  lemma {:induction false} LedgerBalances<V(!new)>(m: Machine<V>, cap: Capacity, s: Situation<V>, n: nat,
      inv: Situation<V> -> bool, held: Situation<V> -> nat, made: seq<Event<V>> -> nat, used: seq<Event<V>> -> nat)
    requires inv(s)
    requires forall x {:trigger inv(x)} :: inv(x) && !Halted(x) ==>
               var y, calls := Step(m, cap, x), StepEvents(m, cap, x);
               && (y.c.status.Running? ==> inv(y))
               && held(x) + made(calls) == held(y) + used(calls)
    ensures held(s) + Total(m, cap, s, n, made) == held(Iter(m, cap, s, n)) + Total(m, cap, s, n, used)
    decreases n
  {
    if n > 0 && !Halted(s) {
      var y := Step(m, cap, s);
      IterOnce(m, cap, s, n);
      if y.c.status.Running? {
        LedgerBalances(m, cap, y, n - 1, inv, held, made, used);
      } else {
        IterHalted(m, cap, y, n - 1);
      }
    }
  }

  /** A count that goes on by what each turn adds, and never exceeds `max`, bounds what a run adds. */
  lemma {:induction false} CountAlong<V(!new)>(m: Machine<V>, cap: Capacity, s: Situation<V>, n: nat,
      inv: (Situation<V>, nat) -> bool, f: seq<Event<V>> -> nat, k: nat, max: nat)
    requires inv(s, k)
    requires forall x, i: nat {:trigger inv(x, i)} :: inv(x, i) ==> i <= max
    requires forall x, i: nat {:trigger inv(x, i)} :: inv(x, i) && !Halted(x) ==>
               var y, more := Step(m, cap, x), f(StepEvents(m, cap, x));
               if y.c.status.Running? then inv(y, i + more) else more == 0
    ensures k + Total(m, cap, s, n, f) <= max
    decreases n
  {
    if n > 0 && !Halted(s) {
      var y, more := Step(m, cap, s), f(StepEvents(m, cap, s));
      if y.c.status.Running? {
        CountAlong(m, cap, y, n - 1, inv, f, k + more, max);
      } else {
        assert Total(m, cap, y, n - 1, f) == 0;
      }
    }
  }
}
