/** Ownership per object.  When the words of a query are all different, no value is built twice,
    so that counting by value counts objects. */
module Fts5Objects {
  import opened LemonDriver
  import opened Fts5Tables
  import opened Fts5Grammar
  import opened Fts5Automaton
  import opened Fts5Soundness
  import opened Fts5Runs
  import opened Fts5Ownership

  // ---------------------------------------------------------------- words

  /** The words of a query: the texts of its STRING tokens. */
  function WordsOf(tokens: seq<Token>): set<string> {
    set t | t in tokens && t.major == STRING :: t.text
  }

  ghost predicate AllDifferent(tokens: seq<Token>) {
    forall i, j :: 0 <= i < j < |tokens| && tokens[i].major == STRING && tokens[j].major == STRING ==>
      tokens[i].text != tokens[j].text
  }

  lemma PartsDiffer(a: seq<Token>, b: seq<Token>)
    requires AllDifferent(a + b)
    ensures AllDifferent(a) && AllDifferent(b) && WordsOf(a) !! WordsOf(b)
  {
    var ab := a + b;
    forall i, j | 0 <= i < |a| && 0 <= j < |b| && a[i].major == STRING && b[j].major == STRING
      ensures a[i].text != b[j].text
    {
      assert ab[i] == a[i] && ab[|a| + j] == b[j];
    }
    forall i, j | 0 <= i < j < |b| && b[i].major == STRING && b[j].major == STRING ensures b[i].text != b[j].text {
      assert ab[|a| + i] == b[i] && ab[|a| + j] == b[j];
    }
    forall i, j | 0 <= i < j < |a| && a[i].major == STRING && a[j].major == STRING ensures a[i].text != a[j].text {
      assert ab[i] == a[i] && ab[j] == a[j];
    }
  }

  // ---------------------------------------------------------------- the words and the size of a value

  function PhraseWords(p: Phrase): set<string> {
    match p
    case Term(word, _) => {word}
    case Plus(rest, word, _) => PhraseWords(rest) + {word}
    case Caret(phrase) => PhraseWords(phrase)
  }

  function NearWords(n: Near): set<string> {
    match n
    case Single(p) => PhraseWords(p)
    case Append(rest, p) => NearWords(rest) + PhraseWords(p)
    case Distance(name, near, distance) =>
      NearWords(near) + {name} + if distance.Some? then {distance.value} else {}
  }

  function ColsetWords(c: Colset): set<string> {
    match c
    case Column(name) => {name}
    case Columns(rest, name) => ColsetWords(rest) + {name}
    case Inverted(colset) => ColsetWords(colset)
  }

  function NodeWords(e: Node): set<string> {
    match e
    case Match(near) => NearWords(near)
    case And(l, r) => NodeWords(l) + NodeWords(r)
    case Or(l, r) => NodeWords(l) + NodeWords(r)
    case Not(l, r) => NodeWords(l) + NodeWords(r)
    case ImplicitAnd(l, r) => NodeWords(l) + NodeWords(r)
    case Within(node, colset) => NodeWords(node) + ColsetWords(colset)
  }

  /** The words in the value of a grammar symbol; of the tokens, only STRING has one. */
  function Words(symbol: int, v: Minor): set<string> {
    match v
    case Text(text) => if text.Some? && (symbol == STRING || symbol == NEARDIST) then {text.value} else {}
    case OfColset(c) => ColsetWords(c)
    case OfNode(e) => NodeWords(e)
    case OfNear(n) => NearWords(n)
    case OfPhrase(p) => PhraseWords(p)
    case _ => {}
  }

  function PhraseSize(p: Phrase): nat {
    match p
    case Term(_, _) => 1
    case Plus(rest, _, _) => 1 + PhraseSize(rest)
    case Caret(phrase) => 1 + PhraseSize(phrase)
  }

  function NearSize(n: Near): nat {
    match n
    case Single(p) => 1 + PhraseSize(p)
    case Append(rest, p) => 1 + NearSize(rest) + PhraseSize(p)
    case Distance(_, near, _) => 1 + NearSize(near)
  }

  function ColsetSize(c: Colset): nat {
    match c
    case Column(_) => 1
    case Columns(rest, _) => 1 + ColsetSize(rest)
    case Inverted(colset) => 1 + ColsetSize(colset)
  }

  function NodeSize(e: Node): nat {
    match e
    case Match(near) => 1 + NearSize(near)
    case And(l, r) => 1 + NodeSize(l) + NodeSize(r)
    case Or(l, r) => 1 + NodeSize(l) + NodeSize(r)
    case Not(l, r) => 1 + NodeSize(l) + NodeSize(r)
    case ImplicitAnd(l, r) => 1 + NodeSize(l) + NodeSize(r)
    case Within(node, colset) => 1 + NodeSize(node) + ColsetSize(colset)
  }

  function Size(v: Minor): nat {
    match v
    case OfColset(c) => ColsetSize(c)
    case OfNode(e) => NodeSize(e)
    case OfNear(n) => NearSize(n)
    case OfPhrase(p) => PhraseSize(p)
    case _ => 0
  }

  // ---------------------------------------------------------------- one action

  /** The words of the value in position `i`, if it is smaller than `size`. */
  function Part(rule: nat, v: seq<Minor>, i: nat, size: nat): set<string>
    requires rule < 28 && |v| == |Rhs(rule)|
  {
    if i < |v| && Size(v[i]) < size then Words(Rhs(rule)[i], v[i]) else {}
  }

  /** The words of the values that are smaller than `size`; no rule has more than five symbols. */
  function Smaller(rule: nat, v: seq<Minor>, size: nat): set<string>
    requires rule < 28 && |v| == |Rhs(rule)|
  {
    Part(rule, v, 0, size) + Part(rule, v, 1, size) + Part(rule, v, 2, size)
    + Part(rule, v, 3, size) + Part(rule, v, 4, size)
  }

  lemma SmallerAt(rule: nat, v: seq<Minor>, size: nat, w: string) returns (i: nat)
    requires rule < 28 && |v| == |Rhs(rule)| && w in Smaller(rule, v, size)
    ensures i < |v| && Size(v[i]) < size && w in Words(Rhs(rule)[i], v[i])
  {
    i := if w in Part(rule, v, 0, size) then 0 else if w in Part(rule, v, 1, size) then 1
      else if w in Part(rule, v, 2, size) then 2 else if w in Part(rule, v, 3, size) then 3 else 4;
  }

  /** A value that has words, all from values smaller than itself, and is no larger than what the
      action leaves. */
  ghost predicate FromSmaller(rule: nat, v: seq<Minor>, x: Minor)
    requires rule < 28 && |v| == |Rhs(rule)|
  {
    Words(EXPR, x) != {} && Words(EXPR, x) <= Smaller(rule, v, Size(x)) && Size(x) <= Size(Act(rule, v))
  }

  /** One builder call of an action: none, or a value from smaller ones. */
  ghost predicate GoodEffect(rule: nat, v: seq<Minor>, effect: Effect)
    requires rule < 28 && |v| == |Rhs(rule)|
  {
    effect.Build? ==> FromSmaller(rule, v, effect.made)
  }

  /** There are at most two, and their values differ in size. */
  ghost predicate GoodEffects(rule: nat, v: seq<Minor>, effects: seq<Effect>)
    requires rule < 28 && |v| == |Rhs(rule)|
  {
    && |effects| <= 2
    && (|effects| > 0 ==> GoodEffect(rule, v, effects[0]))
    && (|effects| > 1 ==> GoodEffect(rule, v, effects[1]))
    && (|effects| > 1 ==> effects[0].Build? && effects[1].Build? && Size(effects[0].made) != Size(effects[1].made))
  }

  /** What the action leaves has no other words than it was given, and nothing it was given is
      larger. */
  ghost predicate KeepsWords(rule: nat, v: seq<Minor>)
    requires rule < 28 && |v| == |Rhs(rule)|
  {
    && Words(Lhs(rule), Act(rule, v)) <= Smaller(rule, v, Size(Act(rule, v)) + 1)
    && forall i :: 0 <= i < |v| ==> Size(v[i]) <= Size(Act(rule, v))
  }

  lemma {:induction false} PhraseHasWords(p: Phrase)
    ensures PhraseWords(p) != {}
  {
    match p
    case Term(word, _) =>
    case Plus(_, word, _) => assert word in PhraseWords(p);
    case Caret(phrase) => PhraseHasWords(phrase);
  }

  lemma {:induction false} NearHasWords(n: Near)
    ensures NearWords(n) != {}
  {
    match n
    case Single(p) => PhraseHasWords(p);
    case Append(rest, p) => PhraseHasWords(p);
    case Distance(name, _, _) => assert name in NearWords(n);
  }

  lemma {:induction false} ColsetHasWords(c: Colset)
    ensures ColsetWords(c) != {}
  {
    match c
    case Column(name) =>
    case Columns(_, name) => assert name in ColsetWords(c);
    case Inverted(colset) => ColsetHasWords(colset);
  }

  lemma {:induction false} NodeHasWords(e: Node)
    ensures NodeWords(e) != {}
  {
    match e
    case Match(near) => NearHasWords(near);
    case And(l, _) => NodeHasWords(l);
    case Or(l, _) => NodeHasWords(l);
    case Not(l, _) => NodeHasWords(l);
    case ImplicitAnd(l, _) => NodeHasWords(l);
    case Within(node, _) => NodeHasWords(node);
  }

  lemma HasWords(x: Minor)
    requires x.OfPhrase? || x.OfNear? || x.OfColset? || x.OfNode?
    ensures Words(EXPR, x) != {}
  {
    match x
    case OfPhrase(p) => PhraseHasWords(p);
    case OfNear(n) => NearHasWords(n);
    case OfColset(c) => ColsetHasWords(c);
    case OfNode(e) => NodeHasWords(e);
  }

  lemma GoodEffectIs(rule: nat, v: seq<Minor>, effect: Effect)
    requires rule < 28 && |v| == |Rhs(rule)|
    requires effect.Build? ==>
      var x := effect.made;
      && (x.OfPhrase? || x.OfNear? || x.OfColset? || x.OfNode?)
      && Words(EXPR, x) <= Smaller(rule, v, Size(x)) && Size(x) <= Size(Act(rule, v))
    ensures GoodEffect(rule, v, effect)
  {
    if effect.Build? { HasWords(effect.made); }
  }

  lemma ColsetEffects(rule: nat, v: seq<Minor>)
    requires rule < 7 && AllTyped(Rhs(rule), v)
    ensures GoodEffects(rule, v, ActionEffects(rule, v)) && KeepsWords(rule, v)
  {
    var effects := ActionEffects(rule, v);
    if |effects| > 0 { GoodEffectIs(rule, v, effects[0]); }
    if |effects| > 1 { GoodEffectIs(rule, v, effects[1]); }
  }

  lemma ExprEffects(rule: nat, v: seq<Minor>)
    requires 7 <= rule < 12 && AllTyped(Rhs(rule), v)
    ensures GoodEffects(rule, v, ActionEffects(rule, v)) && KeepsWords(rule, v)
  {
    var effects := ActionEffects(rule, v);
    if |effects| > 0 { GoodEffectIs(rule, v, effects[0]); }
  }

  lemma CnearsetEffects(rule: nat, v: seq<Minor>)
    requires 12 <= rule < 17 && AllTyped(Rhs(rule), v)
    ensures GoodEffects(rule, v, ActionEffects(rule, v)) && KeepsWords(rule, v)
  {
    var effects := ActionEffects(rule, v);
    if |effects| > 0 { GoodEffectIs(rule, v, effects[0]); }
    if |effects| > 1 { GoodEffectIs(rule, v, effects[1]); }
  }

  lemma NearEffects(rule: nat, v: seq<Minor>)
    requires 17 <= rule < 22 && AllTyped(Rhs(rule), v)
    ensures GoodEffects(rule, v, ActionEffects(rule, v)) && KeepsWords(rule, v)
  {
    var effects := ActionEffects(rule, v);
    if |effects| > 0 { GoodEffectIs(rule, v, effects[0]); }
    if |effects| > 1 { GoodEffectIs(rule, v, effects[1]); }
  }

  lemma PhraseEffects(rule: nat, v: seq<Minor>)
    requires 22 <= rule < 28 && AllTyped(Rhs(rule), v)
    ensures GoodEffects(rule, v, ActionEffects(rule, v)) && KeepsWords(rule, v)
  {
    var effects := ActionEffects(rule, v);
    if |effects| > 0 { GoodEffectIs(rule, v, effects[0]); }
  }

  /** No action builds a value twice, and what it builds is put together from smaller values. */
  lemma ActionEffectsAreGood(rule: nat, v: seq<Minor>)
    requires rule < 28 && AllTyped(Rhs(rule), v)
    ensures GoodEffects(rule, v, ActionEffects(rule, v)) && KeepsWords(rule, v)
  {
    if rule < 7 {
      ColsetEffects(rule, v);
    } else if rule < 12 {
      ExprEffects(rule, v);
    } else if rule < 17 {
      CnearsetEffects(rule, v);
    } else if rule < 22 {
      NearEffects(rule, v);
    } else {
      PhraseEffects(rule, v);
    }
  }

  lemma {:induction false} BuildsOnce(rule: nat, v: seq<Minor>, effects: seq<Effect>, x: Minor)
    requires rule < 28 && |v| == |Rhs(rule)| && GoodEffects(rule, v, effects)
    ensures Made(effects, |effects|, x) <= 1
    ensures Made(effects, |effects|, x) == 1 ==> FromSmaller(rule, v, x)
  {
    EffectsUnrolled(effects, x);
  }

  // ---------------------------------------------------------------- a derivation

  /** How often the actions along a derivation build `x`. */
  function BuiltIn(t: Tree, x: Minor): nat {
    match t
    case Leaf(_) => 0
    case Branch(rule, kids) => BuiltAt(rule, Values(kids), x) + BuiltInAll(kids, x)
  }

  function BuiltAt(rule: nat, v: seq<Minor>, x: Minor): nat {
    if rule < 28 && |v| == |Rhs(rule)| then
      var effects := ActionEffects(rule, v);
      Made(effects, |effects|, x)
    else 0
  }

  function BuiltInAll(ts: seq<Tree>, x: Minor): nat {
    if ts == [] then 0 else BuiltIn(ts[0], x) + BuiltInAll(ts[1..], x)
  }

  lemma {:induction false} WordInYields(ts: seq<Tree>, i: nat, w: string)
    requires i < |ts| && w in WordsOf(Yield(ts[i]))
    ensures w in WordsOf(Yields(ts))
  {
    if i > 0 { WordInYields(ts[1..], i - 1, w); }
  }

  /** A word stands in the yield of one tree only. */
  lemma {:induction false} OneHolder(ts: seq<Tree>, i: nat, j: nat, w: string)
    requires AllDifferent(Yields(ts)) && i < |ts| && j < |ts|
    requires w in WordsOf(Yield(ts[i])) && w in WordsOf(Yield(ts[j]))
    ensures i == j
  {
    PartsDiffer(Yield(ts[0]), Yields(ts[1..]));
    if i > 0 && j > 0 {
      OneHolder(ts[1..], i - 1, j - 1, w);
    } else if i > 0 {
      WordInYields(ts[1..], i - 1, w);
    } else if j > 0 {
      WordInYields(ts[1..], j - 1, w);
    }
  }

  /** The words of a value are among those it was derived from. */
  lemma {:induction false} ValueWords(t: Tree)
    requires Derivation(t)
    ensures Words(Root(t), Value(t)) <= WordsOf(Yield(t))
    decreases t, 1
  {
    if t.Leaf? {
      assert t.token in Yield(t);
    } else {
      ValuesAreTyped(t.kids);
      ActionEffectsAreGood(t.rule, Values(t.kids));
      forall w | w in Words(Root(t), Value(t)) ensures w in WordsOf(Yield(t)) {
        var i := SmallerAt(t.rule, Values(t.kids), Size(Value(t)) + 1, w);
        KidWords(t.kids, i);
        WordInYields(t.kids, i, w);
      }
    }
  }

  lemma {:induction false} KidWords(ts: seq<Tree>, i: nat)
    requires Derivations(ts) && i < |ts|
    ensures Words(Roots(ts)[i], Values(ts)[i]) <= WordsOf(Yield(ts[i]))
    decreases ts, 0
  {
    DerivationsAt(ts, i);
    ValuesAt(ts, i);
    ValueWords(ts[i]);
  }

  /** `x` has words, all from `tokens`, and is no larger than `v`. */
  ghost predicate Inside(x: Minor, tokens: seq<Token>, v: Minor) {
    Words(EXPR, x) != {} && Words(EXPR, x) <= WordsOf(tokens) && Size(x) <= Size(v)
  }

  lemma {:induction false} FromKids(rule: nat, ts: seq<Tree>, x: Minor)
    requires rule < 28 && Roots(ts) == Rhs(rule) && Derivations(ts) && FromSmaller(rule, Values(ts), x)
    ensures Inside(x, Yields(ts), Act(rule, Values(ts)))
  {
    forall w | w in Words(EXPR, x) ensures w in WordsOf(Yields(ts)) {
      var i := SmallerAt(rule, Values(ts), Size(x), w);
      KidWords(ts, i);
      WordInYields(ts, i, w);
    }
  }

  /** What is built from smaller values has not been built along one of them. */
  lemma {:induction false} NotInKid(rule: nat, ts: seq<Tree>, x: Minor, i: nat)
    requires rule < 28 && Roots(ts) == Rhs(rule) && Derivations(ts) && AllDifferent(Yields(ts))
    requires FromSmaller(rule, Values(ts), x) && i < |ts|
    ensures !Inside(x, Yield(ts[i]), Value(ts[i]))
  {
    if Words(EXPR, x) <= WordsOf(Yield(ts[i])) {
      var w :| w in Words(EXPR, x);
      var j := SmallerAt(rule, Values(ts), Size(x), w);
      KidWords(ts, j);
      OneHolder(ts, i, j, w);
      ValuesAt(ts, i);
    }
  }

  /** Along a derivation of a text whose words are all different, `x` is built at most once. */
  lemma {:induction false} BuiltOnce(t: Tree, x: Minor)
    requires Derivation(t) && AllDifferent(Yield(t))
    ensures BuiltIn(t, x) <= 1
    ensures BuiltIn(t, x) == 1 ==> Inside(x, Yield(t), Value(t))
    decreases t, 1
  {
    if t.Branch? {
      var v := Values(t.kids);
      ValuesAreTyped(t.kids);
      ActionEffectsAreGood(t.rule, v);
      BuildsOnce(t.rule, v, ActionEffects(t.rule, v), x);
      if BuiltAt(t.rule, v, x) == 1 { FromKids(t.rule, t.kids, x); }
      var i := BuiltOnceInAll(t.kids, x);
      if BuiltInAll(t.kids, x) == 1 {
        if BuiltAt(t.rule, v, x) == 1 { NotInKid(t.rule, t.kids, x, i); }
        InsideKid(t.rule, t.kids, x, i);
      }
    }
  }

  lemma {:induction false} InsideKid(rule: nat, ts: seq<Tree>, x: Minor, i: nat)
    requires rule < 28 && |ts| == |Rhs(rule)| && KeepsWords(rule, Values(ts))
    requires i < |ts| && Inside(x, Yield(ts[i]), Value(ts[i]))
    ensures Inside(x, Yields(ts), Act(rule, Values(ts)))
  {
    forall w | w in Words(EXPR, x) ensures w in WordsOf(Yields(ts)) {
      WordInYields(ts, i, w);
    }
    ValuesAt(ts, i);
  }

  lemma {:induction false} BuiltOnceInAll(ts: seq<Tree>, x: Minor) returns (i: nat)
    requires Derivations(ts) && AllDifferent(Yields(ts))
    ensures BuiltInAll(ts, x) <= 1
    ensures BuiltInAll(ts, x) == 1 ==> i < |ts| && Inside(x, Yield(ts[i]), Value(ts[i]))
    decreases ts, 0
  {
    i := 0;
    if ts != [] {
      PartsDiffer(Yield(ts[0]), Yields(ts[1..]));
      BuiltOnce(ts[0], x);
      var k := BuiltOnceInAll(ts[1..], x);
      if BuiltInAll(ts[1..], x) == 1 {
        i := k + 1;
        if BuiltIn(ts[0], x) == 1 {
          var w :| w in Words(EXPR, x);
          WordInYields(ts[1..], k, w);
        }
      }
    }
  }

  // ---------------------------------------------------------------- a run

  lemma {:induction false} BuiltInAppend(a: seq<Tree>, b: seq<Tree>, x: Minor)
    ensures BuiltInAll(a + b, x) == BuiltInAll(a, x) + BuiltInAll(b, x)
  {
    if a == [] {
      assert a + b == b;
    } else {
      assert (a + b)[1..] == a[1..] + b;
      BuiltInAppend(a[1..], b, x);
    }
  }

  lemma {:induction false} BuiltInOne(t: Tree, x: Minor)
    ensures BuiltInAll([t], x) == BuiltIn(t, x)
  {
    assert BuiltInAll([t][1..], x) == 0;
  }

  /** A reduction adds what its action builds. */
  lemma {:induction false} BuiltByReduction(forest: seq<Tree>, rule: nat, x: Minor)
    requires rule < 28 && |Rhs(rule)| <= |forest|
    ensures BuiltInAll(ReducedForest(forest, rule), x)
      == BuiltInAll(forest, x) + BuiltAt(rule, Values(forest[|forest| - |Rhs(rule)|..]), x)
  {
    var n := |forest| - |Rhs(rule)|;
    var base, kids := forest[..n], forest[n..];
    assert forest == base + kids;
    BuiltInAppend(base, kids, x);
    BuiltInAppend(base, [Branch(rule, kids)], x);
    BuiltInOne(Branch(rule, kids), x);
  }

  lemma {:induction false} CallMakes(rule: nat, args: seq<Minor>, result: Minor, x: Minor)
    requires rule < 28 && |args| == |Rhs(rule)|
    ensures MadeBy([Called(rule, args, result)], x) == BuiltAt(rule, args, x)
  {
    OneEvent(Called(rule, args, result), x);
  }

  /** `k` is how often `x` is built along what has been derived so far. */
  ghost predicate Counts(tokens: seq<Token>, s: ParseState, x: Minor, k: nat) {
    exists forest, consumed ::
      Sane(s, forest, consumed) && consumed + s.input == tokens && BuiltInAll(forest, x) == k
  }

  /** A turn adds what it makes. */
  ghost predicate TurnCounts(tokens: seq<Token>, s': ParseState, x: Minor, k: nat, made: nat) {
    if s'.c.status.Running? then Counts(tokens, s', x, k + made) else made == 0
  }

  lemma {:induction false} ReductionMakes(cap: Capacity, stack: Stack, forest: seq<Tree>, rule: nat, next: Stack,
                       calls: seq<Event<Minor>>, x: Minor)
    requires Trees(stack, forest) && rule < 28 && |Rhs(rule)| < |stack| && IsReduction(cap, stack, rule, next, calls)
    ensures if Rhs(rule) == [] && !Fits(cap, |stack| + 1) then MadeBy(calls, x) == 0
      else BuiltInAll(ReducedForest(forest, rule), x) == BuiltInAll(forest, x) + MadeBy(calls, x)
  {
    if Rhs(rule) == [] && !Fits(cap, |stack| + 1) {
      DestroyAllFrees(stack[1..], x);
    } else {
      TopTrees(stack, forest, |Rhs(rule)|);
      var args := Minors(stack[|stack| - |Rhs(rule)|..]);
      CallMakes(rule, args, Act(rule, args), x);
      BuiltByReduction(forest, rule, x);
    }
  }

  lemma {:induction false} ReductionCounts(cap: Capacity, tokens: seq<Token>, s: ParseState, forest: seq<Tree>,
                                           consumed: seq<Token>,
                        rule: nat, x: Minor)
    requires !Halted(s) && Sane(s, forest, consumed) && consumed + s.input == tokens
    requires Action(s.c.stack[|s.c.stack| - 1].state, s.input[0].major) == REDUCE + rule
    ensures TurnCounts(tokens, StepOn(QueryParser(), cap, s, REDUCE + rule), x, BuiltInAll(forest, x),
              MadeBy(EventsOn(QueryParser(), cap, s, REDUCE + rule), x))
  {
    ReductionIsGood(cap, s, forest, consumed, rule);
    var next, calls := StepOn(QueryParser(), cap, s, REDUCE + rule), EventsOn(QueryParser(), cap, s, REDUCE + rule);
    ReduceTurnIs(cap, s, rule);
    ReductionMakes(cap, s.c.stack, forest, rule, next.c.stack, calls, x);
    StepOnReduce(cap, s, rule);
  }

  lemma {:induction false} ShiftCounts(cap: Capacity, tokens: seq<Token>, s: ParseState, forest: seq<Tree>,
                                       consumed: seq<Token>,
                    action: int, x: Minor)
    requires !Halted(s) && Sane(s, forest, consumed) && consumed + s.input == tokens
    requires action == Action(s.c.stack[|s.c.stack| - 1].state, s.input[0].major) <= 79
    ensures TurnCounts(tokens, StepOn(QueryParser(), cap, s, action), x, BuiltInAll(forest, x),
              MadeBy(EventsOn(QueryParser(), cap, s, action), x))
  {
    if !Fits(cap, |s.c.stack| + 1) {
      DestroyAllFrees(s.c.stack[1..], x);
    } else {
      var forest', consumed' := ShiftTurn(cap, s, forest, consumed, action);
      BuiltInAppend(forest, [Leaf(s.input[0])], x);
      BuiltInOne(Leaf(s.input[0]), x);
    }
  }

  lemma {:induction false} EndCounts(cap: Capacity, s: ParseState, action: int, x: Minor)
    requires !Halted(s) && Tokens(s.input) && (action == ACCEPT || action == ERROR)
    ensures !StepOn(QueryParser(), cap, s, action).c.status.Running?
    ensures MadeBy(EventsOn(QueryParser(), cap, s, action), x) == 0
  {
    if action == ERROR { OneEvent(Rejected(s.input[0]), x); }
  }

  lemma {:induction false} ActionCounts(cap: Capacity, tokens: seq<Token>, s: ParseState, forest: seq<Tree>,
                                        consumed: seq<Token>,
                     action: int, x: Minor)
    requires !Halted(s) && Sane(s, forest, consumed) && consumed + s.input == tokens
    requires action == Action(s.c.stack[|s.c.stack| - 1].state, s.input[0].major)
    ensures TurnCounts(tokens, StepOn(QueryParser(), cap, s, action), x, BuiltInAll(forest, x),
              MadeBy(EventsOn(QueryParser(), cap, s, action), x))
  {
    if action <= 79 {
      ShiftCounts(cap, tokens, s, forest, consumed, action, x);
    } else if action >= REDUCE {
      ReductionCounts(cap, tokens, s, forest, consumed, action - REDUCE, x);
    } else {
      NextActionIs(s);
      if action != ACCEPT { ErrorAction(s.c.stack[|s.c.stack| - 1].state, s.input[0].major); }
      EndCounts(cap, s, action, x);
    }
  }

  lemma {:induction false} TurnsCount(cap: Capacity, tokens: seq<Token>, s: ParseState, x: Minor, k: nat)
    requires Counts(tokens, s, x, k) && !Halted(s)
    ensures TurnCounts(tokens, Step(QueryParser(), cap, s), x, k, MadeBy(StepEvents(QueryParser(), cap, s), x))
  {
    var forest, consumed :|
      Sane(s, forest, consumed) && consumed + s.input == tokens && BuiltInAll(forest, x) == k;
    var action := Action(s.c.stack[|s.c.stack| - 1].state, s.input[0].major);
    ActionCounts(cap, tokens, s, forest, consumed, action, x);
    NextActionIs(s);
  }

  /** What has been derived so far is part of the query. */
  lemma CountIsSmall(tokens: seq<Token>, s: ParseState, x: Minor, k: nat)
    requires AllDifferent(tokens) && Counts(tokens, s, x, k)
    ensures k <= 1
  {
    var forest, consumed :|
      Sane(s, forest, consumed) && consumed + s.input == tokens && BuiltInAll(forest, x) == k;
    PartsDiffer(consumed, s.input);
    TopTrees(s.c.stack, forest, |forest|);
    assert forest[|forest| - |forest|..] == forest;
    var i := BuiltOnceInAll(forest, x);
  }

  /** While all words of a query are different, no value is built twice in a parse of it, however
      far it goes. */
  lemma {:induction false} NoValueIsMadeTwice(cap: Capacity, tokens: seq<Token>, n: nat, x: Minor)
    requires Tokens(tokens) && AllDifferent(tokens)
    ensures MadeBy(Trace(QueryParser(), cap, Situation(Initial(QueryParser()), tokens), n), x) <= 1
  {
    var s := Situation(Initial(QueryParser()), tokens);
    assert Counts(tokens, s, x, 0) by {
      assert s.c.stack[1..] == [] && [] + tokens == tokens && BuiltInAll([], x) == 0;
      assert Sane(s, [], []);
    }
    forall y: ParseState, k: nat | Counts(tokens, y, x, k) ensures k <= 1 {
      CountIsSmall(tokens, y, x, k);
    }
    forall y: ParseState, k: nat {:trigger Counts(tokens, y, x, k)} | Counts(tokens, y, x, k) && !Halted(y)
      ensures var z, made := Step(QueryParser(), cap, y), MadeOf(x)(StepEvents(QueryParser(), cap, y));
              if z.c.status.Running? then Counts(tokens, z, x, k + made) else made == 0
    {
      TurnsCount(cap, tokens, y, x, k);
    }
    CountAlong(QueryParser(), cap, s, n, (y: ParseState, k: nat) => Counts(tokens, y, x, k), MadeOf(x), 0, 1);
    CountsAreAdditive(x);
    TotalIsOfTrace(QueryParser(), cap, s, n, MadeOf(x));
  }

  /** So the ledger is one of objects: however far the parse has gone, a value that has been
      built has been used exactly once or is owned by exactly one stack slot, and not both; once
      the parser is finalized, it has been used exactly once. */
  lemma {:induction false} EveryObjectIsUsedOnce(cap: Capacity, tokens: seq<Token>, n: nat, x: Minor)
    requires Tokens(tokens) && AllDifferent(tokens)
    ensures var s := Situation(Initial(QueryParser()), tokens);
            var calls, stack := Trace(QueryParser(), cap, s, n), Iter(QueryParser(), cap, s, n).c.stack;
            && MadeBy(calls, x) == UsedBy(calls, x) + Owned(stack, x) <= 1
            && stack != []
            && MadeBy(calls, x) == MadeBy(calls + DestroyAll(stack[1..]), x)
            && MadeBy(calls, x) == UsedBy(calls + DestroyAll(stack[1..]), x)
  {
    var s := Situation(Initial(QueryParser()), tokens);
    NoValueIsMadeTwice(cap, tokens, n, x);
    EveryValueIsUsedOnce(cap, tokens, n, x);
    var calls, stack := Trace(QueryParser(), cap, s, n), Iter(QueryParser(), cap, s, n).c.stack;
    MadeByAppend(calls, DestroyAll(stack[1..]), x);
    DestroyAllFrees(stack[1..], x);
  }
}
