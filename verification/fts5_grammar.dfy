/** The FTS5 query grammar: its 28 rules, the values its reduce actions build, and derivation
    trees (fts5parse.c, fts5parse.y). */
module Fts5Grammar {
  import opened Options
  import opened LemonDriver
  import opened Fts5Tables

  // ---------------------------------------------------------------- semantic values

  /** Fts5ExprPhrase: terms joined by `+`, each with its optional `*`; Caret is ParseSetCaret. */
  datatype Phrase =
    | Term(word: string, prefix: bool)
    | Plus(rest: Phrase, word: string, prefix: bool)
    | Caret(phrase: Phrase)

  /** Fts5ExprNearset: phrases, and the distance set on a NEAR group. */
  datatype Near =
    | Single(phrase: Phrase)
    | Append(rest: Near, phrase: Phrase)
    | Distance(name: string, near: Near, distance: Option<string>)

  /** Fts5Colset: column names, possibly inverted. */
  datatype Colset =
    | Column(name: string)
    | Columns(rest: Colset, name: string)
    | Inverted(colset: Colset)

  /** Fts5ExprNode. */
  datatype Node =
    | Match(near: Near)
    | And(left: Node, right: Node)
    | Or(left: Node, right: Node)
    | Not(left: Node, right: Node)
    | ImplicitAnd(left: Node, right: Node)
    | Within(node: Node, colset: Colset)

  /** YYMINORTYPE, with the member last written; Garbage is what a read of any other member of
      the union would give.  A token whose pointer is null is `Text(None)`. */
  datatype Minor =
    | Text(text: Option<string>)
    | Flag(value: bool)
    | OfColset(colset: Colset)
    | OfNode(node: Node)
    | OfNear(near: Near)
    | OfPhrase(phrase: Phrase)
    | Garbage

  // ---------------------------------------------------------------- rules

  /** The right-hand sides of the rules, in order. */
  function Rhs(rule: nat): seq<int> {
    match rule
    case 0 => [EXPR]
    case 1 => [MINUS, LCP, COLSETLIST, RCP]
    case 2 => [LCP, COLSETLIST, RCP]
    case 3 => [STRING]
    case 4 => [MINUS, STRING]
    case 5 => [COLSETLIST, STRING]
    case 6 => [STRING]
    case 7 => [EXPR, AND, EXPR]
    case 8 => [EXPR, OR, EXPR]
    case 9 => [EXPR, NOT, EXPR]
    case 10 => [COLSET, COLON, LP, EXPR, RP]
    case 11 => [LP, EXPR, RP]
    case 12 => [EXPRLIST]
    case 13 => [CNEARSET]
    case 14 => [EXPRLIST, CNEARSET]
    case 15 => [NEARSET]
    case 16 => [COLSET, COLON, NEARSET]
    case 17 => [PHRASE]
    case 18 => [CARET, PHRASE]
    case 19 => [STRING, LP, NEARPHRASES, NEARDIST, RP]
    case 20 => [PHRASE]
    case 21 => [NEARPHRASES, PHRASE]
    case 22 => []
    case 23 => [COMMA, STRING]
    case 24 => [PHRASE, PLUS, STRING, STAROPT]
    case 25 => [STRING, STAROPT]
    case 26 => [STAR]
    case _ => []
  }

  function Lhs(rule: nat): int { YyRuleInfoLhs(rule) }

  /** The value that a rule's action leaves in the slot of the left-hand side, read from the
      values of the right-hand side. */
  function Act(rule: nat, v: seq<Minor>): Minor {
    match rule
    case 0 => if |v| == 1 && v[0].OfNode? then v[0] else Garbage
    case 1 => if |v| == 4 && v[2].OfColset? then OfColset(Inverted(v[2].colset)) else Garbage
    case 2 => if |v| == 3 && v[1].OfColset? then v[1] else Garbage
    case 3 => if |v| == 1 && IsWord(v[0]) then OfColset(Column(v[0].text.value)) else Garbage
    case 4 => if |v| == 2 && IsWord(v[1]) then OfColset(Inverted(Column(v[1].text.value))) else Garbage
    case 5 =>
      if |v| == 2 && v[0].OfColset? && IsWord(v[1]) then
        OfColset(Columns(v[0].colset, v[1].text.value))
      else Garbage
    case 6 => if |v| == 1 && IsWord(v[0]) then OfColset(Column(v[0].text.value)) else Garbage
    case 7 => if |v| == 3 && v[0].OfNode? && v[2].OfNode? then OfNode(And(v[0].node, v[2].node)) else Garbage
    case 8 => if |v| == 3 && v[0].OfNode? && v[2].OfNode? then OfNode(Or(v[0].node, v[2].node)) else Garbage
    case 9 => if |v| == 3 && v[0].OfNode? && v[2].OfNode? then OfNode(Not(v[0].node, v[2].node)) else Garbage
    case 10 => if |v| == 5 && v[3].OfNode? && v[0].OfColset? then OfNode(Within(v[3].node, v[0].colset)) else Garbage
    case 11 => if |v| == 3 && v[1].OfNode? then v[1] else Garbage
    case 12 => if |v| == 1 && v[0].OfNode? then v[0] else Garbage
    case 13 => if |v| == 1 && v[0].OfNode? then v[0] else Garbage
    case 14 => if |v| == 2 && v[0].OfNode? && v[1].OfNode? then OfNode(ImplicitAnd(v[0].node, v[1].node)) else Garbage
    case 15 => if |v| == 1 && v[0].OfNear? then OfNode(Match(v[0].near)) else Garbage
    case 16 =>
      if |v| == 3 && v[2].OfNear? && v[0].OfColset? then
        OfNode(Within(Match(v[2].near), v[0].colset))
      else Garbage
    case 17 => if |v| == 1 && v[0].OfPhrase? then OfNear(Single(v[0].phrase)) else Garbage
    case 18 => if |v| == 2 && v[1].OfPhrase? then OfNear(Single(Caret(v[1].phrase))) else Garbage
    case 19 =>
      if |v| == 5 && IsWord(v[0]) && v[2].OfNear? && v[3].Text? then
        OfNear(Distance(v[0].text.value, v[2].near, v[3].text))
      else Garbage
    case 20 => if |v| == 1 && v[0].OfPhrase? then OfNear(Single(v[0].phrase)) else Garbage
    case 21 => if |v| == 2 && v[0].OfNear? && v[1].OfPhrase? then OfNear(Append(v[0].near, v[1].phrase)) else Garbage
    case 22 => if |v| == 0 then Text(None) else Garbage
    case 23 => if |v| == 2 && IsWord(v[1]) then v[1] else Garbage
    case 24 =>
      if |v| == 4 && v[0].OfPhrase? && IsWord(v[2]) && v[3].Flag? then
        OfPhrase(Plus(v[0].phrase, v[2].text.value, v[3].value))
      else Garbage
    case 25 => if |v| == 2 && IsWord(v[0]) && v[1].Flag? then OfPhrase(Term(v[0].text.value, v[1].value)) else Garbage
    case 26 => if |v| == 1 then Flag(true) else Garbage
    case 27 => if |v| == 0 then Flag(false) else Garbage
    case _ => Garbage
  }

  predicate IsWord(v: Minor) { v.Text? && v.text.Some? }

  function Lift(token: Token): Minor { Text(Some(token.text)) }

  function QueryParser(): Machine<Minor> { Machine(FTS5(), Lift, Act, Text(None)) }

  // ---------------------------------------------------------------- what each symbol's value may be

  /** `phrase` has no caret of its own. */
  predicate PlainPhrase(p: Phrase) {
    match p
    case Term(_, _) => true
    case Plus(rest, _, _) => PlainPhrase(rest)
    case Caret(_) => false
  }

  predicate NearPhrases(n: Near) {
    match n
    case Single(p) => PlainPhrase(p)
    case Append(rest, p) => NearPhrases(rest) && PlainPhrase(p)
    case Distance(_, _, _) => false
  }

  predicate Nearset(n: Near) {
    match n
    case Single(p) => PlainPhrase(if p.Caret? then p.phrase else p)
    case Append(_, _) => false
    case Distance(_, near, _) => NearPhrases(near)
  }

  predicate ColumnList(c: Colset) {
    match c
    case Column(_) => true
    case Columns(rest, _) => ColumnList(rest)
    case Inverted(_) => false
  }

  predicate ColumnFilter(c: Colset) {
    ColumnList(if c.Inverted? then c.colset else c)
  }

  predicate Cnearset(e: Node) {
    if e.Within? then e.node.Match? && Nearset(e.node.near) && ColumnFilter(e.colset)
    else e.Match? && Nearset(e.near)
  }

  predicate Exprlist(e: Node) {
    if e.ImplicitAnd? then Exprlist(e.left) && Cnearset(e.right) else Cnearset(e)
  }

  /** The trees that a query can denote. */
  predicate Query(e: Node) {
    match e
    case And(l, r) => Query(l) && Query(r)
    case Or(l, r) => Query(l) && Query(r)
    case Not(l, r) => Query(l) && Query(r)
    case Within(n, c) => Query(n) && ColumnFilter(c)
    case Match(_) => Exprlist(e)
    case ImplicitAnd(_, _) => Exprlist(e)
  }

  /** The union member and the shape that a grammar symbol's value must have. */
  predicate Typed(symbol: int, v: Minor) {
    if 0 <= symbol < INPUT then IsWord(v)
    else if symbol == INPUT || symbol == EXPR then v.OfNode? && Query(v.node)
    else if symbol == CNEARSET then v.OfNode? && Cnearset(v.node)
    else if symbol == EXPRLIST then v.OfNode? && Exprlist(v.node)
    else if symbol == COLSET then v.OfColset? && ColumnFilter(v.colset)
    else if symbol == COLSETLIST then v.OfColset? && ColumnList(v.colset)
    else if symbol == NEARSET then v.OfNear? && Nearset(v.near)
    else if symbol == NEARPHRASES then v.OfNear? && NearPhrases(v.near)
    else if symbol == PHRASE then v.OfPhrase? && PlainPhrase(v.phrase)
    else if symbol == NEARDIST then v.Text?
    else if symbol == STAROPT then v.Flag?
    else false
  }

  ghost predicate AllTyped(symbols: seq<int>, v: seq<Minor>) {
    |symbols| == |v| && forall i :: 0 <= i < |v| ==> Typed(symbols[i], v[i])
  }

  lemma {:induction false} CnearsetIsQuery(e: Node)
    requires Cnearset(e)
    ensures Query(e) && Exprlist(e)
  {
    if e.Within? {
      assert Exprlist(e.node);
    }
  }

  lemma {:induction false} ExprlistIsQuery(e: Node)
    requires Exprlist(e)
    ensures Query(e)
  {
    if !e.ImplicitAnd? {
      CnearsetIsQuery(e);
    }
  }

  /** Every action reads the union members that its right-hand side's symbols hold and leaves
      the member that its left-hand side's symbol requires. */
  lemma ActIsTyped(rule: nat, v: seq<Minor>)
    requires rule < 28 && AllTyped(Rhs(rule), v)
    ensures Typed(Lhs(rule), Act(rule, v))
  {
    match rule
    case 12 => ExprlistIsQuery(v[0].node);
    case 13 => CnearsetIsQuery(v[0].node);
    case _ =>
  }

  // ---------------------------------------------------------------- derivations

  datatype Tree = Leaf(token: Token) | Branch(rule: nat, kids: seq<Tree>)

  function Root(t: Tree): int {
    match t
    case Leaf(token) => token.major
    case Branch(rule, _) => Lhs(rule)
  }

  function Roots(ts: seq<Tree>): (xs: seq<int>)
    ensures |xs| == |ts|
    ensures forall i :: 0 <= i < |ts| ==> xs[i] == Root(ts[i])
  {
    if ts == [] then [] else [Root(ts[0])] + Roots(ts[1..])
  }

  /** The tree is built with the rules of the grammar. */
  ghost predicate Derivation(t: Tree) {
    match t
    case Leaf(token) => 0 <= token.major < INPUT
    case Branch(rule, kids) => rule < 28 && Roots(kids) == Rhs(rule) && Derivations(kids)
  }

  ghost predicate Derivations(ts: seq<Tree>) {
    ts == [] || (Derivation(ts[0]) && Derivations(ts[1..]))
  }

  /** The tokens at the leaves. */
  function Yield(t: Tree): seq<Token> {
    match t
    case Leaf(token) => [token]
    case Branch(_, kids) => Yields(kids)
  }

  function Yields(ts: seq<Tree>): seq<Token> {
    if ts == [] then [] else Yield(ts[0]) + Yields(ts[1..])
  }

  /** The value that the actions compute bottom-up. */
  function Value(t: Tree): Minor {
    match t
    case Leaf(token) => Lift(token)
    case Branch(rule, kids) => Act(rule, Values(kids))
  }

  function Values(ts: seq<Tree>): (vs: seq<Minor>)
    ensures |vs| == |ts|
  {
    if ts == [] then [] else [Value(ts[0])] + Values(ts[1..])
  }

  lemma {:induction false} ValuesAt(ts: seq<Tree>, i: nat)
    requires i < |ts|
    ensures Values(ts)[i] == Value(ts[i])
  {
    if i > 0 {
      ValuesAt(ts[1..], i - 1);
    }
  }

  lemma {:induction false} YieldsAppend(a: seq<Tree>, b: seq<Tree>)
    ensures Yields(a + b) == Yields(a) + Yields(b)
  {
    if a == [] {
      assert a + b == b;
    } else {
      assert (a + b)[1..] == a[1..] + b;
      YieldsAppend(a[1..], b);
    }
  }

  lemma {:induction false} DerivationsAppend(a: seq<Tree>, b: seq<Tree>)
    ensures Derivations(a + b) <==> Derivations(a) && Derivations(b)
  {
    if a == [] {
      assert a + b == b;
    } else {
      assert (a + b)[1..] == a[1..] + b;
      DerivationsAppend(a[1..], b);
    }
  }

  lemma {:induction false} DerivationsAt(ts: seq<Tree>, i: nat)
    requires i < |ts| && Derivations(ts)
    ensures Derivation(ts[i])
  {
    if i > 0 {
      DerivationsAt(ts[1..], i - 1);
    }
  }

  // ---------------------------------------------------------------- precedence

  /** How tightly the top of an `expr` tree binds: OR < AND < NOT < everything else. */
  function Level(t: Tree): int {
    match t
    case Leaf(_) => 4
    case Branch(rule, _) => if rule == 8 then 1 else if rule == 7 then 2 else if rule == 9 then 3 else 4
  }

  /** Operators are left-associative with %left OR, %left AND, %left NOT. */
  ghost predicate Precedence(t: Tree) {
    match t
    case Leaf(_) => true
    case Branch(rule, kids) =>
      && Precedences(kids)
      && (rule == 7 && |kids| == 3 ==> Level(kids[0]) >= 2 && Level(kids[2]) >= 3)
      && (rule == 8 && |kids| == 3 ==> Level(kids[0]) >= 1 && Level(kids[2]) >= 2)
      && (rule == 9 && |kids| == 3 ==> Level(kids[0]) >= 3 && Level(kids[2]) >= 4)
  }

  ghost predicate Precedences(ts: seq<Tree>) {
    ts == [] || (Precedence(ts[0]) && Precedences(ts[1..]))
  }

  lemma {:induction false} PrecedencesAppend(a: seq<Tree>, b: seq<Tree>)
    ensures Precedences(a + b) <==> Precedences(a) && Precedences(b)
  {
    if a == [] {
      assert a + b == b;
    } else {
      assert (a + b)[1..] == a[1..] + b;
      PrecedencesAppend(a[1..], b);
    }
  }

  lemma {:induction false} PrecedencesAt(ts: seq<Tree>, i: nat)
    requires i < |ts| && Precedences(ts)
    ensures Precedence(ts[i])
  {
    if i > 0 {
      PrecedencesAt(ts[1..], i - 1);
    }
  }
}
