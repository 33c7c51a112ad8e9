/** The expressions that the grammar actions of parse.c build, and that the rewrites they make on
    the way keep the meaning of what was written. */
module ExprRewrites {

  datatype Value = Null | Datum(d: int)

  /** What the expressions depend on: the row, and how data is negated, compared and tested. */
  datatype World = World(
    column: nat -> Value, call: (nat, seq<Value>) -> Value,
    negate: int -> int, same: (int, int) -> bool, isTrue: int -> bool)

  /** TK_INTEGER, TK_FLOAT, TK_STRING and TK_BLOB */
  datatype LiteralKind = Integer | Float | String | Blob

  /** What was written. */
  datatype Source =
    | SLiteral(kind: LiteralKind, d: int)
    | SNull
    | SColumn(n: nat)
    | SCall(f: nat, args: seq<Source>)
    | SSign(minus: bool, e: Source)
    | SNot(e: Source)
    | SAnd(a: Source, b: Source)
    | SOr(a: Source, b: Source)
    | SEq(a: Source, b: Source)
    | SIs(isNot: bool, a: Source, b: Source)      // IS, IS NOT, IS [NOT] DISTINCT FROM
    | SIsNull(isNot: bool, e: Source)             // ISNULL, NOTNULL, NOT NULL
    | SIn(isNot: bool, e: Source, list: seq<Source>)

  /** What is built. */
  datatype Expr =
    | Literal(kind: LiteralKind, d: int)
    | NullLiteral
    | TrueFalse(value: bool)
    | Column(n: nat)
    | Call(f: nat, args: seq<Expr>)
    | UPlus(e: Expr)
    | UMinus(e: Expr)
    | Not(e: Expr)
    | And(a: Expr, b: Expr)
    | Or(a: Expr, b: Expr)
    | Eq(a: Expr, b: Expr)
    | Is(a: Expr, b: Expr)
    | IsNot(a: Expr, b: Expr)
    | IsNull(e: Expr)
    | NotNull(e: Expr)
    | In(e: Expr, list: seq<Expr>)

  // ---- Three-valued logic ----

  function Truth(b: bool): Value { if b then Datum(1) else Datum(0) }

  predicate Holds(v: Value, w: World) { v.Datum? && w.isTrue(v.d) }

  predicate Fails(v: Value, w: World) { v.Datum? && !w.isTrue(v.d) }

  function NotOf(v: Value, w: World): Value
  {
    if v.Null? then Null else Truth(!w.isTrue(v.d))
  }

  function AndOf(a: Value, b: Value, w: World): Value
  {
    if Fails(a, w) || Fails(b, w) then Truth(false)
    else if a.Null? || b.Null? then Null
    else Truth(true)
  }

  function OrOf(a: Value, b: Value, w: World): Value
  {
    if Holds(a, w) || Holds(b, w) then Truth(true)
    else if a.Null? || b.Null? then Null
    else Truth(false)
  }

  function EqOf(a: Value, b: Value, w: World): Value
  {
    if a.Null? || b.Null? then Null else Truth(w.same(a.d, b.d))
  }

  function IsOf(a: Value, b: Value, w: World): bool
  {
    if a.Null? || b.Null? then a == b else w.same(a.d, b.d)
  }

  function NegateOf(v: Value, w: World): Value
  {
    if v.Null? then Null else Datum(w.negate(v.d))
  }

  /** `v IN (list)`: the comparisons joined by OR. */
  function InOf(v: Value, list: seq<Value>, w: World): Value
  {
    if list == [] then Truth(false) else OrOf(EqOf(v, list[0], w), InOf(v, list[1..], w), w)
  }

  // ---- Meanings ----

  function Meaning(s: Source, w: World): Value
  {
    match s
    case SLiteral(_, d) => Datum(d)
    case SNull => Null
    case SColumn(n) => w.column(n)
    case SCall(f, args) => w.call(f, Meanings(args, w))
    case SSign(minus, e) => if minus then NegateOf(Meaning(e, w), w) else Meaning(e, w)
    case SNot(e) => NotOf(Meaning(e, w), w)
    case SAnd(a, b) => AndOf(Meaning(a, w), Meaning(b, w), w)
    case SOr(a, b) => OrOf(Meaning(a, w), Meaning(b, w), w)
    case SEq(a, b) => EqOf(Meaning(a, w), Meaning(b, w), w)
    case SIs(isNot, a, b) => Truth(IsOf(Meaning(a, w), Meaning(b, w), w) != isNot)
    case SIsNull(isNot, e) => Truth(Meaning(e, w).Null? != isNot)
    case SIn(isNot, e, list) =>
      var r := InOf(Meaning(e, w), Meanings(list, w), w);
      if isNot then NotOf(r, w) else r
  }

  function Meanings(list: seq<Source>, w: World): seq<Value>
  {
    seq(|list|, i requires 0 <= i < |list| => Meaning(list[i], w))
  }

  function Evals(list: seq<Expr>, w: World): seq<Value>
  {
    seq(|list|, i requires 0 <= i < |list| => Eval(list[i], w))
  }

  function Eval(x: Expr, w: World): Value
  {
    match x
    case Literal(_, d) => Datum(d)
    case NullLiteral => Null
    case TrueFalse(b) => Truth(b)
    case Column(n) => w.column(n)
    case Call(f, args) => w.call(f, Evals(args, w))
    case UPlus(e) => Eval(e, w)
    case UMinus(e) => NegateOf(Eval(e, w), w)
    case Not(e) => NotOf(Eval(e, w), w)
    case And(a, b) => AndOf(Eval(a, w), Eval(b, w), w)
    case Or(a, b) => OrOf(Eval(a, w), Eval(b, w), w)
    case Eq(a, b) => EqOf(Eval(a, w), Eval(b, w), w)
    case Is(a, b) => Truth(IsOf(Eval(a, w), Eval(b, w), w))
    case IsNot(a, b) => Truth(!IsOf(Eval(a, w), Eval(b, w), w))
    case IsNull(e) => Truth(Eval(e, w).Null?)
    case NotNull(e) => Truth(!Eval(e, w).Null?)
    case In(e, list) =>
      InOf(Eval(e, w), Evals(list, w), w)
  }

  // ---- The grammar actions ----

  /** EP_HasFunc */
  predicate HasFunc(x: Expr)
  {
    match x
    case Call(_, _) => true
    case UPlus(e) => HasFunc(e)
    case UMinus(e) => HasFunc(e)
    case Not(e) => HasFunc(e)
    case And(a, b) => HasFunc(a) || HasFunc(b)
    case Or(a, b) => HasFunc(a) || HasFunc(b)
    case Eq(a, b) => HasFunc(a) || HasFunc(b)
    case Is(a, b) => HasFunc(a) || HasFunc(b)
    case IsNot(a, b) => HasFunc(a) || HasFunc(b)
    case IsNull(e) => HasFunc(e)
    case NotNull(e) => HasFunc(e)
    case In(e, list) => HasFunc(e) || exists i :: 0 <= i < |list| && HasFunc(list[i])
    case _ => false
  }

  /** `sqlite3ExprIsConstant`: no columns and no function calls. */
  predicate IsConstant(x: Expr)
  {
    match x
    case Column(_) => false
    case Call(_, _) => false
    case UPlus(e) => IsConstant(e)
    case UMinus(e) => IsConstant(e)
    case Not(e) => IsConstant(e)
    case And(a, b) => IsConstant(a) && IsConstant(b)
    case Or(a, b) => IsConstant(a) && IsConstant(b)
    case Eq(a, b) => IsConstant(a) && IsConstant(b)
    case Is(a, b) => IsConstant(a) && IsConstant(b)
    case IsNot(a, b) => IsConstant(a) && IsConstant(b)
    case IsNull(e) => IsConstant(e)
    case NotNull(e) => IsConstant(e)
    case In(e, list) => IsConstant(e) && forall i :: 0 <= i < |list| ==> IsConstant(list[i])
    case _ => true
  }

  /** Under its signs. */
  function Unsigned(x: Expr): Expr
  {
    match x
    case UPlus(e) => Unsigned(e)
    case UMinus(e) => Unsigned(e)
    case _ => x
  }

  /** `sqlite3ExprInt32` */
  function Int32(d: int): Expr { Literal(Integer, d) }

  function IsNullNode(isNot: bool, x: Expr): Expr
  {
    if Unsigned(x).Literal? then Int32(if isNot then 1 else 0) else if isNot then NotNull(x) else IsNull(x)
  }

  /** `sqlite3PExprIsNull`: a test of a signed literal is known while parsing. */
  method PExprIsNull(isNot: bool, left: Expr) returns (x: Expr)
    ensures x == IsNullNode(isNot, left)
  {
    var p := left;
    while p.UPlus? || p.UMinus?
      invariant Unsigned(p) == Unsigned(left)
      decreases p
    {
      p := p.e;
    }
    if p.Literal? {
      return Int32(if isNot then 1 else 0);
    }
    return if isNot then NotNull(left) else IsNull(left);
  }

  /** `sqlite3PExprIs` */
  function IsNode(isNot: bool, a: Expr, b: Expr): Expr
  {
    if b.NullLiteral? then IsNullNode(isNot, a) else if isNot then IsNot(a, b) else Is(a, b)
  }

  /** Rule 216: a sign takes the place of a unary plus below it. */
  function SignNode(minus: bool, x: Expr): Expr
  {
    var e := if x.UPlus? then x.e else x;
    if minus then UMinus(e) else UPlus(e)
  }

  /** Rule 223, given whether the left operand has a function call and whether the first element
      of the list is a constant. */
  function InNode(isNot: bool, x: Expr, list: seq<Expr>, hasFunc: bool, constant: bool): Expr
  {
    if list == [] then
      if !hasFunc then TrueFalse(isNot)
      else if isNot then Or(TrueFalse(true), x) else And(TrueFalse(false), x)
    else
      var r := if |list| == 1 && constant then Eq(x, UPlus(list[0])) else In(x, list);
      if isNot then Not(r) else r
  }

  function Build(s: Source): Expr
  {
    match s
    case SLiteral(kind, d) => Literal(kind, d)
    case SNull => NullLiteral
    case SColumn(n) => Column(n)
    case SCall(f, args) => Call(f, Builds(args))
    case SSign(minus, e) => SignNode(minus, Build(e))
    case SNot(e) => Not(Build(e))
    case SAnd(a, b) => And(Build(a), Build(b))
    case SOr(a, b) => Or(Build(a), Build(b))
    case SEq(a, b) => Eq(Build(a), Build(b))
    case SIs(isNot, a, b) => IsNode(isNot, Build(a), Build(b))
    case SIsNull(isNot, e) => IsNullNode(isNot, Build(e))
    case SIn(isNot, e, list) =>
      var x, built := Build(e), Builds(list);
      InNode(isNot, x, built, HasFunc(x), built != [] && IsConstant(built[0]))
  }

  function Builds(list: seq<Source>): seq<Expr>
  {
    seq(|list|, i requires 0 <= i < |list| => Build(list[i]))
  }

  // ---- The rewrites keep the meaning ----

  lemma {:induction false} SignedLiteralIsNotNull(x: Expr, w: World)
    requires Unsigned(x).Literal?
    ensures Eval(x, w).Datum?
  {
    if x.UPlus? || x.UMinus? { SignedLiteralIsNotNull(x.e, w); }
  }

  lemma {:induction false} IsNullKeepsMeaning(isNot: bool, x: Expr, w: World)
    ensures Eval(IsNullNode(isNot, x), w) == Truth(Eval(x, w).Null? != isNot)
  {
    if Unsigned(x).Literal? { SignedLiteralIsNotNull(x, w); }
  }

  lemma {:induction false} SignKeepsMeaning(minus: bool, x: Expr, w: World)
    ensures Eval(SignNode(minus, x), w) == if minus then NegateOf(Eval(x, w), w) else Eval(x, w)
  {
  }

  /** TrueFalse constants test as what they say. */
  predicate Sound(w: World) { w.isTrue(1) && !w.isTrue(0) }

  lemma {:induction false} SingletonIn(v: Value, vs: seq<Value>, w: World)
    requires Sound(w) && |vs| == 1
    ensures InOf(v, vs, w) == EqOf(v, vs[0], w)
  {
    assert InOf(v, vs[1..], w) == Truth(false);
  }

  lemma {:induction false} InKeepsMeaning(isNot: bool, x: Expr, list: seq<Expr>, hasFunc: bool, constant: bool,
                                          w: World)
    requires Sound(w)
    ensures var r := InOf(Eval(x, w), Evals(list, w), w);
      Eval(InNode(isNot, x, list, hasFunc, constant), w) == if isNot then NotOf(r, w) else r
  {
    var r := InOf(Eval(x, w), Evals(list, w), w);
    if list == [] {
      assert r == Truth(false);
    } else if |list| == 1 && constant {
      SingletonIn(Eval(x, w), Evals(list, w), w);
      assert Eval(UPlus(list[0]), w) == Evals(list, w)[0];
      assert Eval(Eq(x, UPlus(list[0])), w) == r;
    } else {
      assert Eval(In(x, list), w) == r;
    }
  }

  /** For every expression, row and interpretation of the functions, what is built has the value
      of what was written. */
  lemma {:induction false} BuildKeepsMeaning(s: Source, w: World)
    requires Sound(w)
    ensures Eval(Build(s), w) == Meaning(s, w)
  {
    match s
    case SLiteral(_, _) =>
    case SNull =>
    case SColumn(_) =>
    case SCall(f, args) =>
      ListKeepsMeaning(args, w);
    case SSign(minus, e) =>
      BuildKeepsMeaning(e, w);
      SignKeepsMeaning(minus, Build(e), w);
    case SNot(e) =>
      BuildKeepsMeaning(e, w);
    case SAnd(a, b) =>
      BuildKeepsMeaning(a, w);
      BuildKeepsMeaning(b, w);
    case SOr(a, b) =>
      BuildKeepsMeaning(a, w);
      BuildKeepsMeaning(b, w);
    case SEq(a, b) =>
      BuildKeepsMeaning(a, w);
      BuildKeepsMeaning(b, w);
    case SIs(isNot, a, b) =>
      BuildKeepsMeaning(a, w);
      BuildKeepsMeaning(b, w);
      IsNullKeepsMeaning(isNot, Build(a), w);
    case SIsNull(isNot, e) =>
      BuildKeepsMeaning(e, w);
      IsNullKeepsMeaning(isNot, Build(e), w);
    case SIn(isNot, e, list) =>
      BuildKeepsMeaning(e, w);
      ListKeepsMeaning(list, w);
      var x, built := Build(e), Builds(list);
      InKeepsMeaning(isNot, x, built, HasFunc(x), built != [] && IsConstant(built[0]), w);
  }

  lemma {:induction false} ListKeepsMeaning(list: seq<Source>, w: World)
    requires Sound(w)
    ensures Evals(Builds(list), w) == Meanings(list, w)
  {
    forall i | 0 <= i < |list| ensures Eval(Build(list[i]), w) == Meaning(list[i], w) {
      BuildKeepsMeaning(list[i], w);
    }
  }

  // ---- What the flags and the operators mean ----

  /** What an expression depends on. */
  datatype Mention = OfColumn(n: nat) | OfCall(f: nat)

  function Mentions(x: Expr): set<Mention>
  {
    match x
    case Literal(_, _) => {}
    case NullLiteral => {}
    case TrueFalse(_) => {}
    case Column(n) => {OfColumn(n)}
    case Call(f, args) => {OfCall(f)} + MentionsIn(args)
    case UPlus(e) => Mentions(e)
    case UMinus(e) => Mentions(e)
    case Not(e) => Mentions(e)
    case And(a, b) => Mentions(a) + Mentions(b)
    case Or(a, b) => Mentions(a) + Mentions(b)
    case Eq(a, b) => Mentions(a) + Mentions(b)
    case Is(a, b) => Mentions(a) + Mentions(b)
    case IsNot(a, b) => Mentions(a) + Mentions(b)
    case IsNull(e) => Mentions(e)
    case NotNull(e) => Mentions(e)
    case In(e, list) => Mentions(e) + MentionsIn(list)
  }

  function MentionsIn(list: seq<Expr>): set<Mention>
  {
    if list == [] then {} else Mentions(list[0]) + MentionsIn(list[1..])
  }

  lemma {:induction false} MentionsInIff(list: seq<Expr>, m: Mention)
    ensures m in MentionsIn(list) <==> exists i :: 0 <= i < |list| && m in Mentions(list[i])
  {
    if list != [] {
      MentionsInIff(list[1..], m);
      if i :| 0 <= i < |list[1..]| && m in Mentions(list[1..][i]) { assert m in Mentions(list[i + 1]); }
      if i :| 0 <= i < |list| && m in Mentions(list[i]) {
        if i > 0 { assert m in Mentions(list[1..][i - 1]); }
      }
    }
  }

  /** The two differ only where the expression does not look. */
  ghost predicate SameFor(mentions: set<Mention>, w: World, w': World)
  {
    && w.negate == w'.negate && w.same == w'.same && w.isTrue == w'.isTrue
    && (forall n :: OfColumn(n) in mentions ==> w.column(n) == w'.column(n))
    && forall f, args :: OfCall(f) in mentions ==> w.call(f, args) == w'.call(f, args)
  }

  lemma {:induction false} InOfSame(v: Value, list: seq<Value>, w: World, w': World)
    requires w.same == w'.same && w.isTrue == w'.isTrue
    ensures InOf(v, list, w) == InOf(v, list, w')
  {
    if list != [] { InOfSame(v, list[1..], w, w'); }
  }

  lemma {:induction false} TwoDepend(x: Expr, a: Expr, b: Expr, w: World, w': World)
    requires SameFor(Mentions(x), w, w') && Mentions(x) == Mentions(a) + Mentions(b)
    ensures SameFor(Mentions(a), w, w') && SameFor(Mentions(b), w, w')
  {
  }

  /** The value of an expression depends on what it mentions and on nothing else. */
  lemma {:induction false} DependsOnMentions(x: Expr, w: World, w': World)
    requires SameFor(Mentions(x), w, w')
    ensures Eval(x, w) == Eval(x, w')
  {
    match x
    case Literal(_, _) =>
    case NullLiteral =>
    case TrueFalse(_) =>
    case Column(n) => assert OfColumn(n) in Mentions(x);
    case Call(f, args) =>
      assert OfCall(f) in Mentions(x);
      ListDepends(args, w, w');
    case UPlus(e) => DependsOnMentions(e, w, w');
    case UMinus(e) => DependsOnMentions(e, w, w');
    case Not(e) => DependsOnMentions(e, w, w');
    case And(a, b) => TwoDepend(x, a, b, w, w'); DependsOnMentions(a, w, w'); DependsOnMentions(b, w, w');
    case Or(a, b) => TwoDepend(x, a, b, w, w'); DependsOnMentions(a, w, w'); DependsOnMentions(b, w, w');
    case Eq(a, b) => TwoDepend(x, a, b, w, w'); DependsOnMentions(a, w, w'); DependsOnMentions(b, w, w');
    case Is(a, b) => TwoDepend(x, a, b, w, w'); DependsOnMentions(a, w, w'); DependsOnMentions(b, w, w');
    case IsNot(a, b) => TwoDepend(x, a, b, w, w'); DependsOnMentions(a, w, w'); DependsOnMentions(b, w, w');
    case IsNull(e) => DependsOnMentions(e, w, w');
    case NotNull(e) => DependsOnMentions(e, w, w');
    case In(e, list) =>
      DependsOnMentions(e, w, w');
      ListDepends(list, w, w');
      InOfSame(Eval(e, w), Evals(list, w), w, w');
  }

  lemma {:induction false} ListDepends(list: seq<Expr>, w: World, w': World)
    requires SameFor(MentionsIn(list), w, w')
    ensures Evals(list, w) == Evals(list, w')
  {
    if list != [] {
      DependsOnMentions(list[0], w, w');
      ListDepends(list[1..], w, w');
      assert Evals(list, w) == [Eval(list[0], w)] + Evals(list[1..], w);
      assert Evals(list, w') == [Eval(list[0], w')] + Evals(list[1..], w');
    }
  }

  /** EP_HasFunc is set exactly where a function is called. */
  lemma {:induction false} HasFuncIs(x: Expr)
    ensures HasFunc(x) <==> exists f :: OfCall(f) in Mentions(x)
  {
    match x
    case Call(f, args) => assert OfCall(f) in Mentions(x);
    case UPlus(e) => HasFuncIs(e);
    case UMinus(e) => HasFuncIs(e);
    case Not(e) => HasFuncIs(e);
    case And(a, b) => HasFuncIs(a); HasFuncIs(b); EitherCalls(x, a, b);
    case Or(a, b) => HasFuncIs(a); HasFuncIs(b); EitherCalls(x, a, b);
    case Eq(a, b) => HasFuncIs(a); HasFuncIs(b); EitherCalls(x, a, b);
    case Is(a, b) => HasFuncIs(a); HasFuncIs(b); EitherCalls(x, a, b);
    case IsNot(a, b) => HasFuncIs(a); HasFuncIs(b); EitherCalls(x, a, b);
    case IsNull(e) => HasFuncIs(e);
    case NotNull(e) => HasFuncIs(e);
    case In(e, list) =>
      HasFuncIs(e);
      forall i | 0 <= i < |list| ensures HasFunc(list[i]) <==> exists f :: OfCall(f) in Mentions(list[i]) {
        HasFuncIs(list[i]);
      }
      ListCalls(list);
      forall f ensures OfCall(f) in Mentions(x) <==> OfCall(f) in Mentions(e) || OfCall(f) in MentionsIn(list) {
      }
    case _ =>
  }

  lemma {:induction false} EitherCalls(x: Expr, a: Expr, b: Expr)
    requires Mentions(x) == Mentions(a) + Mentions(b)
    ensures (exists f :: OfCall(f) in Mentions(x)) <==>
      (exists f :: OfCall(f) in Mentions(a)) || exists f :: OfCall(f) in Mentions(b)
  {
    forall f ensures OfCall(f) in Mentions(x) <==> OfCall(f) in Mentions(a) || OfCall(f) in Mentions(b) {
    }
  }

  lemma {:induction false} ListCalls(list: seq<Expr>)
    ensures (exists f :: OfCall(f) in MentionsIn(list)) <==>
      exists i :: 0 <= i < |list| && exists f :: OfCall(f) in Mentions(list[i])
  {
    forall f ensures OfCall(f) in MentionsIn(list) <==> exists i :: 0 <= i < |list| && OfCall(f) in Mentions(list[i]) {
      MentionsInIff(list, OfCall(f));
    }
    if i, f :| 0 <= i < |list| && OfCall(f) in Mentions(list[i]) { assert OfCall(f) in MentionsIn(list); }
  }

  /** A constant mentions no columns and no functions. */
  lemma {:induction false} IsConstantIs(x: Expr)
    ensures IsConstant(x) <==> Mentions(x) == {}
  {
    match x
    case Call(f, args) => assert OfCall(f) in Mentions(x);
    case Column(n) => assert OfColumn(n) in Mentions(x);
    case UPlus(e) => IsConstantIs(e);
    case UMinus(e) => IsConstantIs(e);
    case Not(e) => IsConstantIs(e);
    case And(a, b) => IsConstantIs(a); IsConstantIs(b);
    case Or(a, b) => IsConstantIs(a); IsConstantIs(b);
    case Eq(a, b) => IsConstantIs(a); IsConstantIs(b);
    case Is(a, b) => IsConstantIs(a); IsConstantIs(b);
    case IsNot(a, b) => IsConstantIs(a); IsConstantIs(b);
    case IsNull(e) => IsConstantIs(e);
    case NotNull(e) => IsConstantIs(e);
    case In(e, list) =>
      IsConstantIs(e);
      ListIsConstant(list);
    case _ =>
  }

  lemma {:induction false} ListIsConstant(list: seq<Expr>)
    ensures (forall i :: 0 <= i < |list| ==> IsConstant(list[i])) <==> MentionsIn(list) == {}
  {
    if list != [] {
      IsConstantIs(list[0]);
      ListIsConstant(list[1..]);
      assert (forall i :: 0 <= i < |list[1..]| ==> IsConstant(list[1..][i])) ==>
          forall i :: 1 <= i < |list| ==> IsConstant(list[i]) by {
        forall i | 1 <= i < |list| ensures list[i] == list[1..][i - 1] {
        }
      }
    }
  }

  /** The functions that what was written calls. */
  function CallsOf(s: Source): set<nat>
  {
    match s
    case SLiteral(_, _) => {}
    case SNull => {}
    case SColumn(_) => {}
    case SCall(f, args) => {f} + CallsIn(args)
    case SSign(_, e) => CallsOf(e)
    case SNot(e) => CallsOf(e)
    case SAnd(a, b) => CallsOf(a) + CallsOf(b)
    case SOr(a, b) => CallsOf(a) + CallsOf(b)
    case SEq(a, b) => CallsOf(a) + CallsOf(b)
    case SIs(_, a, b) => CallsOf(a) + CallsOf(b)
    case SIsNull(_, e) => CallsOf(e)
    case SIn(_, e, list) => CallsOf(e) + CallsIn(list)
  }

  function CallsIn(list: seq<Source>): set<nat>
  {
    if list == [] then {} else CallsOf(list[0]) + CallsIn(list[1..])
  }

  ghost predicate SameCalls(x: Expr, calls: set<nat>) { forall f :: f in calls <==> OfCall(f) in Mentions(x) }

  lemma {:induction false} SignedLiteralMentions(x: Expr)
    requires Unsigned(x).Literal?
    ensures Mentions(x) == {}
  {
    if x.UPlus? || x.UMinus? { SignedLiteralMentions(x.e); }
  }

  /** No rewrite loses a call of a function, or adds one. */
  lemma {:induction false} BuildKeepsCalls(s: Source)
    ensures SameCalls(Build(s), CallsOf(s))
  {
    match s
    case SLiteral(_, _) =>
    case SNull =>
    case SColumn(_) =>
    case SCall(f, args) => ListKeepsCalls(args);
    case SSign(_, e) => BuildKeepsCalls(e);
    case SNot(e) => BuildKeepsCalls(e);
    case SAnd(a, b) => BuildKeepsCalls(a); BuildKeepsCalls(b);
    case SOr(a, b) => BuildKeepsCalls(a); BuildKeepsCalls(b);
    case SEq(a, b) => BuildKeepsCalls(a); BuildKeepsCalls(b);
    case SIs(isNot, a, b) =>
      BuildKeepsCalls(a);
      BuildKeepsCalls(b);
      if Unsigned(Build(a)).Literal? { SignedLiteralMentions(Build(a)); }
    case SIsNull(isNot, e) =>
      BuildKeepsCalls(e);
      if Unsigned(Build(e)).Literal? { SignedLiteralMentions(Build(e)); }
    case SIn(isNot, e, list) =>
      BuildKeepsCalls(e);
      ListKeepsCalls(list);
      var x, built := Build(e), Builds(list);
      HasFuncIs(x);
      InKeepsCalls(isNot, x, built, HasFunc(x), built != [] && IsConstant(built[0]), CallsOf(e), CallsIn(list));
  }

  lemma {:induction false} InKeepsCalls(isNot: bool, x: Expr, list: seq<Expr>, hasFunc: bool, constant: bool,
                                        inX: set<nat>,
                     inList: set<nat>)
    requires SameCalls(x, inX) && forall f :: f in inList <==> OfCall(f) in MentionsIn(list)
    requires hasFunc <==> exists f :: OfCall(f) in Mentions(x)
    ensures SameCalls(InNode(isNot, x, list, hasFunc, constant), inX + inList)
  {
    if |list| == 1 {
      assert MentionsIn(list[1..]) == {};
      assert Mentions(UPlus(list[0])) == MentionsIn(list);
    }
  }

  lemma {:induction false} ListKeepsCalls(list: seq<Source>)
    ensures forall f :: f in CallsIn(list) <==> OfCall(f) in MentionsIn(Builds(list))
  {
    if list != [] {
      BuildKeepsCalls(list[0]);
      ListKeepsCalls(list[1..]);
      assert Builds(list)[1..] == Builds(list[1..]);
    }
  }

  /** Where a value stands between false and true. */
  function Rank(v: Value, w: World): int { if v.Null? then 1 else if w.isTrue(v.d) then 2 else 0 }

  /** AND is the lesser, OR the greater and NOT the other way round, with NULL in the middle. */
  lemma OperatorsAreKleene(a: Value, b: Value, w: World)
    requires Sound(w)
    ensures Rank(AndOf(a, b, w), w) == if Rank(a, w) < Rank(b, w) then Rank(a, w) else Rank(b, w)
    ensures Rank(OrOf(a, b, w), w) == if Rank(a, w) < Rank(b, w) then Rank(b, w) else Rank(a, w)
    ensures Rank(NotOf(a, w), w) == 2 - Rank(a, w)
    ensures a.Datum? && b.Datum? ==> EqOf(a, b, w) == Truth(IsOf(a, b, w))
  {
  }

  /** IN is true if an element is the same, unknown if none is but one or the operand is NULL, and
      false otherwise. */
  lemma {:induction false} InIs(v: Value, list: seq<Value>, w: World)
    requires Sound(w)
    ensures InOf(v, list, w) ==
      if v.Datum? && exists i :: 0 <= i < |list| && list[i].Datum? && w.same(v.d, list[i].d) then Truth(true)
      else if list != [] && (v.Null? || Null in list) then Null
      else Truth(false)
  {
    if list != [] {
      InIs(v, list[1..], w);
      assert list == [list[0]] + list[1..];
    }
  }

  // ---- What the rewrites achieve ----

  /** What the grammar never builds: a test of a signed literal or of the constant NULL, a unary
      plus below a sign, IN with no element or with one constant element; except that the one
      constant that `IN` is compared to has a plus put in front, whatever it is. */
  predicate Normal(x: Expr)
  {
    match x
    case Literal(_, _) => true
    case NullLiteral => true
    case TrueFalse(_) => true
    case Column(_) => true
    case Call(_, args) => forall i :: 0 <= i < |args| ==> Normal(args[i])
    case UPlus(e) => Normal(e) && !e.UPlus?
    case UMinus(e) => Normal(e) && !e.UPlus?
    case Not(e) => Normal(e)
    case And(a, b) => Normal(a) && Normal(b)
    case Or(a, b) => Normal(a) && Normal(b)
    case Eq(a, b) => Normal(a) && (Normal(b) || (b.UPlus? && Normal(b.e) && Mentions(b.e) == {}))
    case Is(a, b) => Normal(a) && Normal(b) && !b.NullLiteral?
    case IsNot(a, b) => Normal(a) && Normal(b) && !b.NullLiteral?
    case IsNull(e) => Normal(e) && !Unsigned(e).Literal?
    case NotNull(e) => Normal(e) && !Unsigned(e).Literal?
    case In(e, list) =>
      && Normal(e) && list != [] && (|list| == 1 ==> Mentions(list[0]) != {})
      && forall i :: 0 <= i < |list| ==> Normal(list[i])
  }

  /** Every tree that is built has all rewrites made. */
  lemma {:induction false} BuildIsNormal(s: Source)
    ensures Normal(Build(s))
  {
    match s
    case SLiteral(_, _) =>
    case SNull =>
    case SColumn(_) =>
    case SCall(f, args) => forall i | 0 <= i < |args| ensures Normal(Build(args[i])) { BuildIsNormal(args[i]); }
    case SSign(_, e) => BuildIsNormal(e);
    case SNot(e) => BuildIsNormal(e);
    case SAnd(a, b) => BuildIsNormal(a); BuildIsNormal(b);
    case SOr(a, b) => BuildIsNormal(a); BuildIsNormal(b);
    case SEq(a, b) => BuildIsNormal(a); BuildIsNormal(b);
    case SIs(_, a, b) => BuildIsNormal(a); BuildIsNormal(b);
    case SIsNull(_, e) => BuildIsNormal(e);
    case SIn(isNot, e, list) =>
      BuildIsNormal(e);
      forall i | 0 <= i < |list| ensures Normal(Build(list[i])) { BuildIsNormal(list[i]); }
      var built := Builds(list);
      if built != [] { IsConstantIs(built[0]); }
      InIsNormal(isNot, Build(e), built, HasFunc(Build(e)), built != [] && IsConstant(built[0]));
  }

  lemma {:induction false} InIsNormal(isNot: bool, x: Expr, list: seq<Expr>, hasFunc: bool, constant: bool)
    requires Normal(x) && forall i :: 0 <= i < |list| ==> Normal(list[i])
    requires list != [] ==> (constant <==> Mentions(list[0]) == {})
    ensures Normal(InNode(isNot, x, list, hasFunc, constant))
  {
  }

  /** IN is rewritten into a constant exactly for an empty list and an operand without a call, and
      into a comparison exactly for a list of one constant. */
  lemma {:induction false} InIsRewrittenIff(isNot: bool, e: Source, list: seq<Source>)
    ensures var x := Build(SIn(isNot, e, list));
      && (x.TrueFalse? <==> list == [] && CallsOf(e) == {})
      && (list != [] ==>
            && x.Not? == isNot
            && var r := if isNot then x.e else x;
               (r.In? || r.Eq?) && (r.Eq? <==> |list| == 1 && Mentions(Build(list[0])) == {}))
  {
    BuildKeepsCalls(e);
    HasFuncIs(Build(e));
    if list != [] { IsConstantIs(Build(list[0])); }
  }
}
