/** The parser object of lempar.c: `yystack`, `yytos` and `yystackEnd`, with the stack
    reallocated by `yyGrowStack`, unwound by `yyStackOverflow` and overwritten in place by
    `yy_shift` and `yy_reduce`. */
module LemonParser {
  import opened Options
  import opened LemonTables
  import opened LemonDriver

  /** Fixed: no YYDYNSTACK.  Unlimited: growable without YYSIZELIMIT.  Limited: growable up to
      the value of YYSIZELIMIT. */
  datatype Growth = Fixed | Unlimited | Limited(limit: nat)

  /** What the stack can hold when every allocation succeeds. */
  function EffectiveCapacity(growth: Growth, depth: nat): Capacity {
    match growth
    case Fixed => Some(depth)
    case Unlimited => None
    case Limited(limit) => Some(Max(depth, limit))
  }

  /** The stack holds `depth` entries in any case, and as many as the limit allows if it grows. */
  lemma CapacityIs(growth: Growth, depth: nat, n: nat)
    ensures Fits(EffectiveCapacity(growth, depth), n) <==>
      n <= depth || growth.Unlimited? || (growth.Limited? && n <= growth.limit)
  {
  }

  class Parser<V> {
    const m: Machine<V>
    const growth: Growth
    const depth: nat               // YYSTACKDEPTH
    var yystack: array<Entry<V>>   // yystackEnd is its last element
    var yytos: nat                 // index of the top entry
    var status: Status<V>
    ghost var peak: nat            // the high-water mark
    ghost var events: seq<Event<V>>  // calls of actions and destructors so far

    ghost predicate Valid()
      reads this, yystack
    {
      && 0 < depth
      && yytos < yystack.Length
      && match growth
         case Fixed => yystack.Length == depth
         case Unlimited => depth <= yystack.Length
         case Limited(limit) => yystack.Length == depth || depth < yystack.Length <= limit
    }

    ghost function Stack(): seq<Entry<V>>
      reads this, yystack
      requires Valid()
    {
      yystack[..yytos + 1]
    }

    ghost function Abs(): Config<V>
      reads this, yystack
      requires Valid()
    {
      Config(Stack(), peak, status)
    }

    ghost function Cap(): Capacity { EffectiveCapacity(growth, depth) }

    constructor (m: Machine<V>, growth: Growth, depth: nat)
      requires 0 < depth
      ensures Valid() && fresh(yystack)
      ensures this.m == m && this.growth == growth && this.depth == depth
      ensures Abs() == Initial(m) && events == []
    {
      this.m := m;
      this.growth := growth;
      this.depth := depth;
      var bottom := Entry(0, 0, m.bottom);
      yystack := new Entry<V>[depth](_ => bottom);
      yytos := 0;
      status := Running;
      peak := 1;
      events := [];
    }

    /** Doubles the stack plus 100 entries, clipped to the limit; refuses exactly when the
        stack already has its full capacity. */
    method GrowStack() returns (failed: bool)
      requires Valid()
      modifies this`yystack
      ensures Valid() && yystack.Length >= old(yystack.Length)
      ensures failed <==> !Fits(Cap(), old(yystack.Length) + 1)
      ensures failed <==> growth.Fixed? || (growth.Limited? && growth.limit <= old(yystack.Length))
      ensures !failed ==>
        var doubled := 2 * old(yystack.Length) + 100;
        yystack.Length == if growth.Limited? && growth.limit < doubled then growth.limit else doubled
      ensures failed ==> yystack == old(yystack)
      ensures !failed ==> fresh(yystack) && yystack.Length > old(yystack.Length)
      ensures yystack[..old(yystack.Length)] == old(yystack[..])
    {
      if growth.Fixed? {
        return true;
      }
      var oldSize := yystack.Length;
      var newSize := oldSize * 2 + 100;
      if growth.Limited? && newSize > growth.limit {
        newSize := growth.limit;
        if newSize <= oldSize {
          return true;
        }
      }
      var yyold := yystack;
      var filler := yyold[yytos];
      yystack := new Entry<V>[newSize](i reads yyold => if 0 <= i < yyold.Length then yyold[i] else filler);
      assert yystack[..oldSize] == yyold[..];
      return false;
    }

    method StackOverflow()
      requires Valid()
      modifies this`yytos, this`status, this`events
      ensures Valid() && yystack == old(yystack)
      ensures Stack() == old(Stack())[..1] && status == Overflowed
      ensures events == old(events) + DestroyAll(old(Stack())[1..])
    {
      ghost var stack := Stack();
      ghost var seen := [];
      assert stack[1..yytos + 1] == stack[1..];
      while yytos > 0
        invariant yytos <= old(yytos) && Valid() && yystack == old(yystack)
        invariant stack == old(Stack()) && events == old(events) + seen
        invariant seen + DestroyAll(stack[1..yytos + 1]) == DestroyAll(stack[1..])
      {
        DestroyAllFromTop(stack, yytos, seen);
        assert yystack[yytos] == stack[yytos];
        seen := seen + [Destroyed(yystack[yytos])];
        events := events + [Destroyed(yystack[yytos])];
        yytos := yytos - 1;
      }
      status := Overflowed;
    }

    /** Destroys what is left on the stack when the parser is freed. */
    method Finalize()
      requires Valid()
      modifies this`events
      ensures Valid() && Abs() == old(Abs())
      ensures events == old(events) + DestroyAll(old(Stack())[1..])
    {
      ghost var stack := Stack();
      ghost var seen := [];
      var top := yytos;
      assert stack[1..top + 1] == stack[1..];
      while top > 0
        invariant 0 <= top <= yytos && Valid() && Abs() == old(Abs())
        invariant stack == old(Stack()) && |stack| == yytos + 1 && yystack[..yytos + 1] == stack
        invariant events == old(events) + seen
        invariant seen + DestroyAll(stack[1..top + 1]) == DestroyAll(stack[1..])
      {
        DestroyAllFromTop(stack, top, seen);
        assert yystack[top] == stack[top];
        seen := seen + [Destroyed(yystack[top])];
        events := events + [Destroyed(yystack[top])];
        top := top - 1;
      }
    }

    method YyShift(action: int, token: Token)
      requires Valid() && status.Running?
      modifies this, yystack
      ensures Valid() && (yystack == old(yystack) || fresh(yystack))
      ensures Abs() == Shift(m, Cap(), old(Abs()), action, token)
      ensures events == old(events) + (if Fits(Cap(), |old(Stack())| + 1) then [] else DestroyAll(old(Stack())[1..]))
    {
      ghost var stack := Stack();
      if yytos + 1 >= yystack.Length {
        var failed := GrowStack();
        assert Stack() == stack;
        if failed {
          StackOverflow();
          return;
        }
      }
      yytos := yytos + 1;
      var newState := action;
      if newState > m.T.maxShift {
        newState := newState + m.T.minReduce - m.T.minShiftReduce;
      }
      yystack[yytos] := Entry(newState, token.major, m.lift(token));
      assert yystack[..yytos] == stack;
      peak := Max(peak, yytos + 1);
    }

    /** Pops the right-hand side and overwrites the slot above the exposed state; room for the
        left-hand side of an epsilon rule has been made by the caller. */
    method YyReduce(rule: nat)
      requires Valid() && status.Running?
      requires !Reduce(m, Abs(), rule).status.Stuck?
      requires IsEpsilon(m.T, rule) ==> yytos + 1 < yystack.Length
      modifies this, yystack
      ensures Valid() && yystack == old(yystack)
      ensures Abs() == Reduce(m, old(Abs()), rule)
      ensures events == old(events) + [RuleCall(m, old(Stack()), rule)]
    {
      ghost var stack := Stack();
      var size := -m.T.ruleNRhs[rule];
      var args := Minors(yystack[yytos + 1 - size..yytos + 1]);
      assert yystack[yytos + 1 - size..yytos + 1] == stack[|stack| - size..];
      var value := m.act(rule, args);
      var lhs := m.T.ruleLhs[rule];
      var next := FindReduceAction(m.T, yystack[yytos - size].state, lhs).value;
      yytos := yytos - size + 1;
      yystack[yytos] := Entry(next, lhs, value);
      events := events + [Called(rule, args, value)];
      peak := Max(peak, yytos + 1);
      assert yystack[..yytos] == stack[..|stack| - size];
    }

    /** Reduces, after making room if the rule is an epsilon rule. */
    method ReduceTurn(rule: nat, token: Token)
      requires Valid() && status.Running?
      requires !StepOn(m, Cap(), Situation(Abs(), [token]), m.T.minReduce + rule).c.status.Stuck?
      modifies this, yystack
      ensures Valid() && (yystack == old(yystack) || fresh(yystack))
      ensures Situation(Abs(), [token])
           == StepOn(m, Cap(), Situation(old(Abs()), [token]), m.T.minReduce + rule)
      ensures status.Running? || status.Overflowed?
      ensures events == old(events) + EventsOn(m, Cap(), Situation(old(Abs()), [token]), m.T.minReduce + rule)
    {
      ghost var stack := Stack();
      ReductionTurn(m, Cap(), Situation(Abs(), [token]), rule);
      if rule < |m.T.ruleNRhs| && m.T.ruleNRhs[rule] == 0 && yytos + 1 >= yystack.Length {
        var failed := GrowStack();
        assert Stack() == stack;
        if failed {
          StackOverflow();
          return;
        }
      }
      assert Abs() == old(Abs());
      YyReduce(rule);
    }

    /** Carries out the action chosen for the lookahead. */
    method Act(action: int, token: Token) returns (done: bool)
      requires Valid() && status.Running?
      requires !StepOn(m, Cap(), Situation(Abs(), [token]), action).c.status.Stuck?
      modifies this, yystack
      ensures Valid() && (yystack == old(yystack) || fresh(yystack))
      ensures Situation(Abs(), if done && status.Running? then [] else [token])
           == StepOn(m, Cap(), Situation(old(Abs()), [token]), action)
      ensures done || status.Running?
      ensures events == old(events) + EventsOn(m, Cap(), Situation(old(Abs()), [token]), action)
    {
      assert [token][1..] == [];
      if action >= m.T.minReduce {
        ReduceTurn(action - m.T.minReduce, token);
        done := !status.Running?;
      } else if action <= m.T.maxShiftReduce {
        YyShift(action, token);
        done := true;
      } else if action == m.T.acceptAction {
        ghost var stack := Stack();
        status := Accepted(yystack[yytos].minor);
        yytos := yytos - 1;
        assert Stack() == stack[..1];
        done := true;
      } else {
        status := SyntaxError(token);
        events := events + [Rejected(token)];
        done := true;
      }
    }

    /** The head of the loop body: look the action up. */
    method Turn(token: Token) returns (done: bool)
      requires Valid() && status.Running?
      requires !Step(m, Cap(), Situation(Abs(), [token])).c.status.Stuck?
      modifies this, yystack
      ensures Valid() && (yystack == old(yystack) || fresh(yystack))
      ensures Situation(Abs(), if done && status.Running? then [] else [token])
           == Step(m, Cap(), Situation(old(Abs()), [token]))
      ensures done || status.Running?
      ensures events == old(events) + StepEvents(m, Cap(), Situation(old(Abs()), [token]))
    {
      assert Stack()[|Stack()| - 1] == yystack[yytos];
      var action, _ := RunShiftLookup(m.T, token.major, yystack[yytos].state);
      done := Act(action, token);
    }

    /** The loop of the parser, along the turns of a run that ends in `states`' last element. */
    method RunTurns(token: Token, ghost states: seq<Situation<V>>, ghost calls: seq<seq<Event<V>>>)
      requires Valid() && status.Running?
      requires states != [] && AreTurns(m, Cap(), states, calls)
      requires states[0] == Situation(Abs(), [token]) && calls[0] == events && Halted(states[|states| - 1])
      modifies this, yystack
      ensures Valid() && (yystack == old(yystack) || fresh(yystack))
      ensures Abs() == states[|states| - 1].c && events == calls[|states| - 1]
    {
      ghost var k := 0;
      var done := false;
      while !done
        invariant Valid() && (yystack == old(yystack) || fresh(yystack))
        invariant done || status.Running?
        invariant k < |states| && events == calls[k]
        invariant states[k] == Situation(Abs(), if done && status.Running? then [] else [token])
        decreases |states| - k
      {
        assert !Halted(states[k]);
        assert IsTurn(m, Cap(), states, calls, k);
        done := Turn(token);
        k := k + 1;
      }
      assert k + 1 < |states| ==> IsTurn(m, Cap(), states, calls, k);
    }

    /** One call of the parser with one token.  `n` is any number of turns of its loop after
        which the driver has stopped; the tables must not make one of its asserts fail. */
    method Parse(token: Token, ghost n: nat)
      requires Valid() && status.Running?
      requires Halted(Iter(m, Cap(), Situation(Abs(), [token]), n))
      requires !Iter(m, Cap(), Situation(Abs(), [token]), n).c.status.Stuck?
      modifies this, yystack
      ensures Valid() && (yystack == old(yystack) || fresh(yystack))
      ensures Halts(m, Cap(), old(Abs()), [token])
      ensures Abs() == Exec(m, Cap(), old(Abs()), [token])
      ensures events == old(events) + Trace(m, Cap(), Situation(old(Abs()), [token]), n)
    {
      ghost var states, calls := TurnsOfRun(m, Cap(), Situation(Abs(), [token]), n, events);
      ExecIs(m, Cap(), Abs(), [token], n);
      RunTurns(token, states, calls);
    }
  }

  lemma DestroyAllFromTop<V>(stack: seq<Entry<V>>, top: nat, seen: seq<Event<V>>)
    requires 0 < top < |stack|
    ensures seen + DestroyAll(stack[1..top + 1]) == seen + [Destroyed(stack[top])] + DestroyAll(stack[1..top])
  {
    var popped := stack[1..top + 1];
    assert popped[..|popped| - 1] == stack[1..top];
    assert popped[|popped| - 1] == stack[top];
  }
}
