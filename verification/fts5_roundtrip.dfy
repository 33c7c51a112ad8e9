/** Printing FTS5 query trees and parsing them back (fts5parse.c): the printer puts parentheses
    only where OR < AND < NOT < implicit AND and left associativity ask for them. */
module Fts5RoundTrip {
  import opened Options
  import opened LemonDriver
  import opened Fts5Tables
  import opened Fts5Grammar
  import opened Fts5Soundness
  import opened Fts5Runs
  import opened Fts5Completeness
  import opened Fts5Language

  // ---------------------------------------------------------------- the printer

  function Join(parts: seq<seq<Token>>): seq<Token> {
    if parts == [] then [] else parts[0] + Join(parts[1..])
  }

  function Word(w: string): seq<Token> { [Token(STRING, w)] }

  function Mark(major: int): seq<Token> { [Token(major, "")] }

  function PrintStar(prefix: bool): seq<Token> { if prefix then Join([Mark(STAR)]) else Join([]) }

  function PrintPhrase(p: Phrase): seq<Token>
    requires PlainPhrase(p)
  {
    match p
    case Term(w, prefix) => Join([Word(w), PrintStar(prefix)])
    case Plus(rest, w, prefix) => Join([PrintPhrase(rest), Mark(PLUS), Word(w), PrintStar(prefix)])
  }

  function PrintNearPhrases(n: Near): seq<Token>
    requires NearPhrases(n)
  {
    match n
    case Single(p) => Join([PrintPhrase(p)])
    case Append(rest, p) => Join([PrintNearPhrases(rest), PrintPhrase(p)])
  }

  function PrintDistance(d: Option<string>): seq<Token> {
    if d.Some? then Join([Mark(COMMA), Word(d.value)]) else Join([])
  }

  function PrintNear(n: Near): seq<Token>
    requires Nearset(n)
  {
    match n
    case Single(p) => if p.Caret? then Join([Mark(CARET), PrintPhrase(p.phrase)]) else Join([PrintPhrase(p)])
    case Distance(name, near, d) => Join([Word(name), Mark(LP), PrintNearPhrases(near), PrintDistance(d), Mark(RP)])
  }

  function PrintColumns(c: Colset): seq<Token>
    requires ColumnList(c)
  {
    match c
    case Column(name) => Join([Word(name)])
    case Columns(rest, name) => Join([PrintColumns(rest), Word(name)])
  }

  /** A list of one column goes without braces. */
  function PrintColset(c: Colset): seq<Token>
    requires ColumnFilter(c)
  {
    match c
    case Column(name) => Join([Word(name)])
    case Columns(_, _) => Join([Mark(LCP), PrintColumns(c), Mark(RCP)])
    case Inverted(d) =>
      if d.Column? then Join([Mark(MINUS), Word(d.name)])
      else Join([Mark(MINUS), Mark(LCP), PrintColumns(d), Mark(RCP)])
  }

  function PrintCnearset(e: Node): seq<Token>
    requires Cnearset(e)
  {
    if e.Within? then Join([PrintColset(e.colset), Mark(COLON), PrintNear(e.node.near)]) else Join([PrintNear(e.near)])
  }

  function PrintExprlist(e: Node): seq<Token>
    requires Exprlist(e)
  {
    if e.ImplicitAnd? then Join([PrintExprlist(e.left), PrintCnearset(e.right)]) else Join([PrintCnearset(e)])
  }

  function Binding(e: Node): int {
    match e
    case Or(_, _) => 1
    case And(_, _) => 2
    case Not(_, _) => 3
    case _ => 4
  }

  lemma {:induction false} FilteredMatch(e: Node)
    requires Query(e) && e.Within? && e.node.Match?
    ensures Cnearset(e) && Exprlist(e)
  {
    assert Exprlist(e.node) && Cnearset(e.node);
  }

  /** Prints a query as an operand that must bind at least as tightly as `level`. */
  function Print(e: Node, level: int): seq<Token>
    requires Query(e)
    decreases e, level
  {
    if Binding(e) < level && level > 1 then Join([Mark(LP), Print(e, 1), Mark(RP)])
    else
      match e
      case Or(l, r) => Join([Print(l, 1), Mark(OR), Print(r, 2)])
      case And(l, r) => Join([Print(l, 2), Mark(AND), Print(r, 3)])
      case Not(l, r) => Join([Print(l, 3), Mark(NOT), Print(r, 4)])
      case Within(n, c) =>
        if n.Match? then FilteredMatch(e); Join([PrintExprlist(e)])
        else Join([PrintColset(c), Mark(COLON), Mark(LP), Print(n, 1), Mark(RP)])
      case Match(_) => Join([PrintExprlist(e)])
      case ImplicitAnd(_, _) => Join([PrintExprlist(e)])
  }

  // ---------------------------------------------------------------- the derivation of a printed tree

  function LeafOf(tokens: seq<Token>): Tree
    requires |tokens| == 1
  {
    Leaf(tokens[0])
  }

  function StarTree(prefix: bool): Tree { if prefix then Branch(26, [LeafOf(Mark(STAR))]) else Branch(27, []) }

  function PhraseTree(p: Phrase): Tree
    requires PlainPhrase(p)
  {
    match p
    case Term(w, prefix) => Branch(25, [LeafOf(Word(w)), StarTree(prefix)])
    case Plus(rest, w, prefix) => Branch(24, [PhraseTree(rest), LeafOf(Mark(PLUS)), LeafOf(Word(w)), StarTree(prefix)])
  }

  function NearPhrasesTree(n: Near): Tree
    requires NearPhrases(n)
  {
    match n
    case Single(p) => Branch(20, [PhraseTree(p)])
    case Append(rest, p) => Branch(21, [NearPhrasesTree(rest), PhraseTree(p)])
  }

  function DistanceTree(d: Option<string>): Tree {
    if d.Some? then Branch(23, [LeafOf(Mark(COMMA)), LeafOf(Word(d.value))]) else Branch(22, [])
  }

  function NearTree(n: Near): Tree
    requires Nearset(n)
  {
    match n
    case Single(p) =>
      if p.Caret? then Branch(18, [LeafOf(Mark(CARET)), PhraseTree(p.phrase)]) else Branch(17, [PhraseTree(p)])
    case Distance(name, near, d) =>
      Branch(19, [LeafOf(Word(name)), LeafOf(Mark(LP)), NearPhrasesTree(near), DistanceTree(d), LeafOf(Mark(RP))])
  }

  function ColumnsTree(c: Colset): Tree
    requires ColumnList(c)
  {
    match c
    case Column(name) => Branch(6, [LeafOf(Word(name))])
    case Columns(rest, name) => Branch(5, [ColumnsTree(rest), LeafOf(Word(name))])
  }

  function ColsetTree(c: Colset): Tree
    requires ColumnFilter(c)
  {
    match c
    case Column(name) => Branch(3, [LeafOf(Word(name))])
    case Columns(_, _) => Branch(2, [LeafOf(Mark(LCP)), ColumnsTree(c), LeafOf(Mark(RCP))])
    case Inverted(d) =>
      if d.Column? then Branch(4, [LeafOf(Mark(MINUS)), LeafOf(Word(d.name))])
      else Branch(1, [LeafOf(Mark(MINUS)), LeafOf(Mark(LCP)), ColumnsTree(d), LeafOf(Mark(RCP))])
  }

  function CnearsetTree(e: Node): Tree
    requires Cnearset(e)
  {
    if e.Within? then Branch(16, [ColsetTree(e.colset), LeafOf(Mark(COLON)), NearTree(e.node.near)])
    else Branch(15, [NearTree(e.near)])
  }

  function ExprlistTree(e: Node): Tree
    requires Exprlist(e)
  {
    if e.ImplicitAnd? then Branch(14, [ExprlistTree(e.left), CnearsetTree(e.right)]) else Branch(13, [CnearsetTree(e)])
  }

  function ExprTree(e: Node, level: int): Tree
    requires Query(e)
    decreases e, level
  {
    if Binding(e) < level && level > 1 then Branch(11, [LeafOf(Mark(LP)), ExprTree(e, 1), LeafOf(Mark(RP))])
    else
      match e
      case Or(l, r) => Branch(8, [ExprTree(l, 1), LeafOf(Mark(OR)), ExprTree(r, 2)])
      case And(l, r) => Branch(7, [ExprTree(l, 2), LeafOf(Mark(AND)), ExprTree(r, 3)])
      case Not(l, r) => Branch(9, [ExprTree(l, 3), LeafOf(Mark(NOT)), ExprTree(r, 4)])
      case Within(n, c) =>
        if n.Match? then FilteredMatch(e); Branch(12, [ExprlistTree(e)])
        else Branch(10, [ColsetTree(c), LeafOf(Mark(COLON)), LeafOf(Mark(LP)), ExprTree(n, 1), LeafOf(Mark(RP))])
      case Match(_) => Branch(12, [ExprlistTree(e)])
      case ImplicitAnd(_, _) => Branch(12, [ExprlistTree(e)])
  }

  /** The tree derives the tokens from the symbol and computes the value. */
  ghost predicate Derives(t: Tree, symbol: int, tokens: seq<Token>, value: Minor) {
    Derivation(t) && Precedence(t) && Root(t) == symbol && Yield(t) == tokens && Value(t) == value
  }

  /** The parts of a branch derive the symbols of its rule. */
  ghost predicate PartAt(rule: nat, kids: seq<Tree>, parts: seq<seq<Token>>, values: seq<Minor>, i: nat)
    requires i < |kids| == |parts| == |values| == |Rhs(rule)|
  {
    Derives(kids[i], Rhs(rule)[i], parts[i], values[i])
  }

  lemma {:induction false} JoinsYields(kids: seq<Tree>, parts: seq<seq<Token>>, values: seq<Minor>)
    requires |kids| == |parts| == |values|
    requires forall i :: 0 <= i < |kids| ==> Derives(kids[i], Root(kids[i]), parts[i], values[i])
    ensures Yields(kids) == Join(parts) && Values(kids) == values && Derivations(kids) && Precedences(kids)
  {
    if kids != [] {
      JoinsYields(kids[1..], parts[1..], values[1..]);
    }
  }

  /** Operands of AND, OR and NOT bind as tightly as the precedences ask. */
  ghost predicate OperandLevels(rule: nat, kids: seq<Tree>) {
    IsBinary(rule) && |kids| == 3 ==>
      Level(kids[0]) >= (if rule == 7 then 2 else if rule == 8 then 1 else 3)
      && Level(kids[2]) >= (if rule == 7 then 3 else if rule == 8 then 2 else 4)
  }

  lemma {:induction false} BranchDerives(rule: nat, kids: seq<Tree>, parts: seq<seq<Token>>, values: seq<Minor>)
    requires rule < 28 && |kids| == |parts| == |values| == |Rhs(rule)|
    requires forall i: nat {:trigger PartAt(rule, kids, parts, values, i)} ::
      i < |kids| ==> PartAt(rule, kids, parts, values, i)
    requires OperandLevels(rule, kids)
    ensures Derives(Branch(rule, kids), Lhs(rule), Join(parts), Act(rule, values))
  {
    forall i | 0 <= i < |kids|
      ensures Root(kids[i]) == Rhs(rule)[i] && Derives(kids[i], Root(kids[i]), parts[i], values[i])
    {
      assert PartAt(rule, kids, parts, values, i);
    }
    JoinsYields(kids, parts, values);
  }

  /** A tree with what it derives. */
  datatype Part = Part(tree: Tree, tokens: seq<Token>, value: Minor)

  ghost predicate Is(part: Part, symbol: int) { Derives(part.tree, symbol, part.tokens, part.value) }

  lemma BranchDerives1(rule: nat, a: Part)
    requires rule < 28 && |Rhs(rule)| == 1
    requires Is(a, Rhs(rule)[0])
    ensures Derives(Branch(rule, [a.tree]), Lhs(rule), Join([a.tokens]),
              Act(rule, [a.value]))
  {
    BranchDerives(rule, [a.tree], [a.tokens],
      [a.value]);
  }

  lemma BranchDerives2(rule: nat, a: Part, b: Part)
    requires rule < 28 && |Rhs(rule)| == 2
    requires Is(a, Rhs(rule)[0]) && Is(b, Rhs(rule)[1])
    ensures Derives(Branch(rule, [a.tree, b.tree]), Lhs(rule), Join([a.tokens, b.tokens]),
              Act(rule, [a.value, b.value]))
  {
    BranchDerives(rule, [a.tree, b.tree], [a.tokens, b.tokens],
      [a.value, b.value]);
  }

  lemma BranchDerives3(rule: nat, a: Part, b: Part, c: Part)
    requires rule < 28 && |Rhs(rule)| == 3
    requires Is(a, Rhs(rule)[0]) && Is(b, Rhs(rule)[1]) && Is(c, Rhs(rule)[2])
    requires OperandLevels(rule, [a.tree, b.tree, c.tree])
    ensures Derives(Branch(rule, [a.tree, b.tree, c.tree]), Lhs(rule), Join([a.tokens, b.tokens, c.tokens]),
              Act(rule, [a.value, b.value, c.value]))
  {
    BranchDerives(rule, [a.tree, b.tree, c.tree], [a.tokens, b.tokens, c.tokens],
      [a.value, b.value, c.value]);
  }

  lemma BranchDerives4(rule: nat, a: Part, b: Part, c: Part, d: Part)
    requires rule < 28 && |Rhs(rule)| == 4
    requires Is(a, Rhs(rule)[0]) && Is(b, Rhs(rule)[1]) && Is(c, Rhs(rule)[2]) && Is(d, Rhs(rule)[3])
    ensures Derives(Branch(rule, [a.tree, b.tree, c.tree, d.tree]), Lhs(rule),
                    Join([a.tokens, b.tokens, c.tokens, d.tokens]),
              Act(rule, [a.value, b.value, c.value, d.value]))
  {
    BranchDerives(rule, [a.tree, b.tree, c.tree, d.tree], [a.tokens, b.tokens, c.tokens, d.tokens],
      [a.value, b.value, c.value, d.value]);
  }

  lemma BranchDerives5(rule: nat, a: Part, b: Part, c: Part, d: Part, e: Part)
    requires rule < 28 && |Rhs(rule)| == 5
    requires Is(a, Rhs(rule)[0]) && Is(b, Rhs(rule)[1]) && Is(c, Rhs(rule)[2]) && Is(d, Rhs(rule)[3])
      && Is(e, Rhs(rule)[4])
    ensures Derives(Branch(rule, [a.tree, b.tree, c.tree, d.tree, e.tree]), Lhs(rule),
                    Join([a.tokens, b.tokens, c.tokens, d.tokens, e.tokens]),
              Act(rule, [a.value, b.value, c.value, d.value, e.value]))
  {
    BranchDerives(rule, [a.tree, b.tree, c.tree, d.tree, e.tree], [a.tokens, b.tokens, c.tokens, d.tokens, e.tokens],
      [a.value, b.value, c.value, d.value, e.value]);
  }

  lemma MarkDerives(major: int)
    requires 0 <= major < INPUT
    ensures Derives(LeafOf(Mark(major)), major, Mark(major), Text(Some("")))
  {
  }

  lemma WordDerives(w: string)
    ensures Derives(LeafOf(Word(w)), STRING, Word(w), Text(Some(w)))
  {
  }

  lemma StarDerives(prefix: bool)
    ensures Derives(StarTree(prefix), STAROPT, PrintStar(prefix), Flag(prefix))
  {
    if prefix {
      BranchDerives1(26,
        Part(LeafOf(Mark(STAR)), Mark(STAR), Text(Some(""))));
    } else {
      BranchDerives(27, [], [], []);
    }
  }

  lemma {:induction false} TermDerives(p: Phrase)
    requires p.Term?
    ensures Derives(PhraseTree(p), PHRASE, PrintPhrase(p), OfPhrase(p))
  {
    StarDerives(p.prefix);
    BranchDerives2(25,
      Part(LeafOf(Word(p.word)), Word(p.word), Text(Some(p.word))),
      Part(StarTree(p.prefix), PrintStar(p.prefix), Flag(p.prefix)));
  }

  lemma PlusPartDerives(rest: Phrase, a: Part, w: string, prefix: bool, star: Part)
    requires Is(a, PHRASE) && a.value == OfPhrase(rest) && Is(star, STAROPT) && star.value == Flag(prefix)
    ensures Derives(Branch(24, [a.tree, LeafOf(Mark(PLUS)), LeafOf(Word(w)), star.tree]), PHRASE,
              Join([a.tokens, Mark(PLUS), Word(w), star.tokens]), OfPhrase(Plus(rest, w, prefix)))
  {
    BranchDerives4(24, a, Part(LeafOf(Mark(PLUS)), Mark(PLUS), Text(Some(""))),
      Part(LeafOf(Word(w)), Word(w), Text(Some(w))), star);
  }

  lemma {:induction false} PlusDerives(p: Phrase)
    requires p.Plus? && PlainPhrase(p)
    requires Derives(PhraseTree(p.rest), PHRASE, PrintPhrase(p.rest), OfPhrase(p.rest))
    ensures Derives(PhraseTree(p), PHRASE, PrintPhrase(p), OfPhrase(p))
  {
    StarDerives(p.prefix);
    PlusPartDerives(p.rest, Part(PhraseTree(p.rest), PrintPhrase(p.rest), OfPhrase(p.rest)),
      p.word, p.prefix, Part(StarTree(p.prefix), PrintStar(p.prefix), Flag(p.prefix)));
  }

  lemma {:induction false} PhraseDerives(p: Phrase)
    requires PlainPhrase(p)
    ensures Derives(PhraseTree(p), PHRASE, PrintPhrase(p), OfPhrase(p))
  {
    if p.Term? {
      TermDerives(p);
    } else {
      PhraseDerives(p.rest);
      PlusDerives(p);
    }
  }

  lemma {:induction false} NearPhrasesDerive(n: Near)
    requires NearPhrases(n)
    ensures Derives(NearPhrasesTree(n), NEARPHRASES, PrintNearPhrases(n), OfNear(n))
  {
    PhraseDerives(n.phrase);
    if n.Single? {
      BranchDerives1(20,
        Part(PhraseTree(n.phrase), PrintPhrase(n.phrase), OfPhrase(n.phrase)));
    } else {
      NearPhrasesDerive(n.rest);
      BranchDerives2(21,
        Part(NearPhrasesTree(n.rest), PrintNearPhrases(n.rest), OfNear(n.rest)),
        Part(PhraseTree(n.phrase), PrintPhrase(n.phrase), OfPhrase(n.phrase)));
    }
  }

  lemma DistanceDerives(d: Option<string>)
    ensures Derives(DistanceTree(d), NEARDIST, PrintDistance(d), Text(d))
  {
    if d.Some? {
      BranchDerives2(23,
        Part(LeafOf(Mark(COMMA)), Mark(COMMA), Text(Some(""))),
        Part(LeafOf(Word(d.value)), Word(d.value), Text(Some(d.value))));
    } else {
      BranchDerives(22, [], [], []);
    }
  }

  lemma NearDerives(n: Near)
    requires Nearset(n)
    ensures Derives(NearTree(n), NEARSET, PrintNear(n), OfNear(n))
  {
    if n.Distance? {
      GroupDerives(n);
    } else if n.phrase.Caret? {
      PhraseDerives(n.phrase.phrase);
      BranchDerives2(18,
        Part(LeafOf(Mark(CARET)), Mark(CARET), Text(Some(""))),
        Part(PhraseTree(n.phrase.phrase), PrintPhrase(n.phrase.phrase), OfPhrase(n.phrase.phrase)));
    } else {
      PhraseDerives(n.phrase);
      BranchDerives1(17,
        Part(PhraseTree(n.phrase), PrintPhrase(n.phrase), OfPhrase(n.phrase)));
    }
  }

  lemma GroupDerives(n: Near)
    requires Nearset(n) && n.Distance?
    ensures Derives(NearTree(n), NEARSET, PrintNear(n), OfNear(n))
  {
    WordDerives(n.name);
    MarkDerives(LP);
    NearPhrasesDerive(n.near);
    DistanceDerives(n.distance);
    MarkDerives(RP);
    BranchDerives5(19,
      Part(LeafOf(Word(n.name)), Word(n.name), Text(Some(n.name))),
      Part(LeafOf(Mark(LP)), Mark(LP), Text(Some(""))),
      Part(NearPhrasesTree(n.near), PrintNearPhrases(n.near), OfNear(n.near)),
      Part(DistanceTree(n.distance), PrintDistance(n.distance), Text(n.distance)),
      Part(LeafOf(Mark(RP)), Mark(RP), Text(Some(""))));
  }

  lemma {:induction false} ColumnsDerive(c: Colset)
    requires ColumnList(c)
    ensures Derives(ColumnsTree(c), COLSETLIST, PrintColumns(c), OfColset(c))
  {
    if c.Column? {
      BranchDerives1(6,
        Part(LeafOf(Word(c.name)), Word(c.name), Text(Some(c.name))));
    } else {
      ColumnsDerive(c.rest);
      BranchDerives2(5,
        Part(ColumnsTree(c.rest), PrintColumns(c.rest), OfColset(c.rest)),
        Part(LeafOf(Word(c.name)), Word(c.name), Text(Some(c.name))));
    }
  }

  lemma ColsetDerives(c: Colset)
    requires ColumnFilter(c)
    ensures Derives(ColsetTree(c), COLSET, PrintColset(c), OfColset(c))
  {
    match c {
      case Column(name) =>
        BranchDerives1(3,
          Part(LeafOf(Word(name)), Word(name), Text(Some(name))));
      case Columns(_, _) =>
        ColumnsDerive(c);
        BranchDerives3(2,
          Part(LeafOf(Mark(LCP)), Mark(LCP), Text(Some(""))),
          Part(ColumnsTree(c), PrintColumns(c), OfColset(c)),
          Part(LeafOf(Mark(RCP)), Mark(RCP), Text(Some(""))));
      case Inverted(d) =>
        if d.Column? {
          BranchDerives2(4,
            Part(LeafOf(Mark(MINUS)), Mark(MINUS), Text(Some(""))),
            Part(LeafOf(Word(d.name)), Word(d.name), Text(Some(d.name))));
        } else {
          BracesDerive(c);
        }
    }
  }

  lemma BracesDerive(c: Colset)
    requires ColumnFilter(c) && c.Inverted? && !c.colset.Column?
    ensures Derives(ColsetTree(c), COLSET, PrintColset(c), OfColset(c))
  {
    var d := c.colset;
    ColumnsDerive(d);
    BranchDerives4(1,
      Part(LeafOf(Mark(MINUS)), Mark(MINUS), Text(Some(""))),
      Part(LeafOf(Mark(LCP)), Mark(LCP), Text(Some(""))),
      Part(ColumnsTree(d), PrintColumns(d), OfColset(d)),
      Part(LeafOf(Mark(RCP)), Mark(RCP), Text(Some(""))));
  }

  lemma FilteredDerives(c: Colset, a: Part, n: Near, b: Part)
    requires Is(a, COLSET) && a.value == OfColset(c) && Is(b, NEARSET) && b.value == OfNear(n)
    ensures Derives(Branch(16, [a.tree, LeafOf(Mark(COLON)), b.tree]), CNEARSET,
              Join([a.tokens, Mark(COLON), b.tokens]), OfNode(Within(Match(n), c)))
  {
    BranchDerives3(16, a, Part(LeafOf(Mark(COLON)), Mark(COLON), Text(Some(""))), b);
  }

  lemma CnearsetDerives(e: Node)
    requires Cnearset(e)
    ensures Derives(CnearsetTree(e), CNEARSET, PrintCnearset(e), OfNode(e))
  {
    if e.Within? {
      ColsetDerives(e.colset);
      NearDerives(e.node.near);
      FilteredDerives(e.colset, Part(ColsetTree(e.colset), PrintColset(e.colset), OfColset(e.colset)),
        e.node.near, Part(NearTree(e.node.near), PrintNear(e.node.near), OfNear(e.node.near)));
    } else {
      NearDerives(e.near);
      BranchDerives1(15,
        Part(NearTree(e.near), PrintNear(e.near), OfNear(e.near)));
    }
  }

  lemma {:induction false} ExprlistDerives(e: Node)
    requires Exprlist(e)
    ensures Derives(ExprlistTree(e), EXPRLIST, PrintExprlist(e), OfNode(e))
  {
    if e.ImplicitAnd? {
      ExprlistDerives(e.left);
      CnearsetDerives(e.right);
      BranchDerives2(14,
        Part(ExprlistTree(e.left), PrintExprlist(e.left), OfNode(e.left)),
        Part(CnearsetTree(e.right), PrintCnearset(e.right), OfNode(e.right)));
    } else {
      CnearsetDerives(e);
      BranchDerives1(13,
        Part(CnearsetTree(e), PrintCnearset(e), OfNode(e)));
    }
  }

  /** A printed operand derives from `expr`, computes the tree and binds tightly enough. */
  ghost predicate ExprDerives(e: Node, level: int)
    requires Query(e)
  {
    && Derives(ExprTree(e, level), EXPR, Print(e, level), OfNode(e))
    && (1 <= level <= 4 ==> Level(ExprTree(e, level)) >= level)
  }

  /** Two operands and the operator between them. */
  lemma OperatorDerives(rule: nat, op: int, a: Part, b: Part)
    requires IsBinary(rule) && op == Rhs(rule)[1] && Is(a, EXPR) && Is(b, EXPR)
    requires OperandLevels(rule, [a.tree, LeafOf(Mark(op)), b.tree])
    ensures Derives(Branch(rule, [a.tree, LeafOf(Mark(op)), b.tree]), EXPR, Join([a.tokens, Mark(op), b.tokens]),
              Act(rule, [a.value, Text(Some("")), b.value]))
  {
    BranchDerives3(rule, a, Part(LeafOf(Mark(op)), Mark(op), Text(Some(""))), b);
  }

  lemma {:induction false} OrDerives(l: Node, r: Node)
    requires Query(l) && Query(r) && ExprDerives(l, 1) && ExprDerives(r, 2)
    ensures Derives(Branch(8, [ExprTree(l, 1), LeafOf(Mark(OR)), ExprTree(r, 2)]), EXPR,
                    Join([Print(l, 1), Mark(OR), Print(r, 2)]), OfNode(Or(l, r)))
  {
    OperatorDerives(8, OR, Part(ExprTree(l, 1), Print(l, 1), OfNode(l)),
      Part(ExprTree(r, 2), Print(r, 2), OfNode(r)));
  }

  lemma {:induction false} AndDerives(l: Node, r: Node)
    requires Query(l) && Query(r) && ExprDerives(l, 2) && ExprDerives(r, 3)
    ensures Derives(Branch(7, [ExprTree(l, 2), LeafOf(Mark(AND)), ExprTree(r, 3)]), EXPR,
                    Join([Print(l, 2), Mark(AND), Print(r, 3)]), OfNode(And(l, r)))
  {
    OperatorDerives(7, AND, Part(ExprTree(l, 2), Print(l, 2), OfNode(l)),
      Part(ExprTree(r, 3), Print(r, 3), OfNode(r)));
  }

  lemma {:induction false} NotDerives(l: Node, r: Node)
    requires Query(l) && Query(r) && ExprDerives(l, 3) && ExprDerives(r, 4)
    ensures Derives(Branch(9, [ExprTree(l, 3), LeafOf(Mark(NOT)), ExprTree(r, 4)]), EXPR,
                    Join([Print(l, 3), Mark(NOT), Print(r, 4)]), OfNode(Not(l, r)))
  {
    OperatorDerives(9, NOT, Part(ExprTree(l, 3), Print(l, 3), OfNode(l)),
      Part(ExprTree(r, 4), Print(r, 4), OfNode(r)));
  }

  lemma {:induction false} PrintOrDerives(e: Node, level: int)
    requires Query(e) && e.Or? && level <= 1 && ExprDerives(e.left, 1) && ExprDerives(e.right, 2)
    ensures ExprDerives(e, level)
  {
    OrDerives(e.left, e.right);
  }

  lemma {:induction false} PrintAndDerives(e: Node, level: int)
    requires Query(e) && e.And? && level <= 2 && ExprDerives(e.left, 2) && ExprDerives(e.right, 3)
    ensures ExprDerives(e, level)
  {
    AndDerives(e.left, e.right);
  }

  lemma {:induction false} PrintNotDerives(e: Node, level: int)
    requires Query(e) && e.Not? && level <= 3 && ExprDerives(e.left, 3) && ExprDerives(e.right, 4)
    ensures ExprDerives(e, level)
  {
    NotDerives(e.left, e.right);
  }

  lemma {:induction false} ParenthesesDerive(e: Node, level: int)
    requires Query(e) && ExprDerives(e, 1) && Binding(e) < level && level > 1
    ensures ExprDerives(e, level)
  {
    BranchDerives3(11,
      Part(LeafOf(Mark(LP)), Mark(LP), Text(Some(""))),
      Part(ExprTree(e, 1), Print(e, 1), OfNode(e)),
      Part(LeafOf(Mark(RP)), Mark(RP), Text(Some(""))));
  }

  lemma FilterPartDerives(n: Node, b: Part, c: Colset, a: Part)
    requires Is(a, COLSET) && a.value == OfColset(c) && Is(b, EXPR) && b.value == OfNode(n)
    ensures Derives(Branch(10, [a.tree, LeafOf(Mark(COLON)), LeafOf(Mark(LP)), b.tree, LeafOf(Mark(RP))]), EXPR,
              Join([a.tokens, Mark(COLON), Mark(LP), b.tokens, Mark(RP)]), OfNode(Within(n, c)))
  {
    MarkDerives(COLON);
    MarkDerives(LP);
    MarkDerives(RP);
    BranchDerives5(10, a, Part(LeafOf(Mark(COLON)), Mark(COLON), Text(Some(""))),
      Part(LeafOf(Mark(LP)), Mark(LP), Text(Some(""))), b,
      Part(LeafOf(Mark(RP)), Mark(RP), Text(Some(""))));
  }

  lemma {:induction false} FilterDerives(n: Node, c: Colset)
    requires Query(n) && ColumnFilter(c) && ExprDerives(n, 1)
    ensures Derives(Branch(10, [ColsetTree(c), LeafOf(Mark(COLON)), LeafOf(Mark(LP)), ExprTree(n, 1),
                                LeafOf(Mark(RP))]),
              EXPR, Join([PrintColset(c), Mark(COLON), Mark(LP), Print(n, 1), Mark(RP)]), OfNode(Within(n, c)))
  {
    ColsetDerives(c);
    FilterPartDerives(n, Part(ExprTree(n, 1), Print(n, 1), OfNode(n)),
      c, Part(ColsetTree(c), PrintColset(c), OfColset(c)));
  }

  lemma {:induction false} PrintFilterDerives(e: Node, level: int)
    requires Query(e) && e.Within? && !e.node.Match? && level <= 4 && ExprDerives(e.node, 1)
    ensures ExprDerives(e, level)
  {
    FilterDerives(e.node, e.colset);
  }

  lemma {:induction false} ListDerives(e: Node)
    requires Exprlist(e)
    ensures Derives(Branch(12, [ExprlistTree(e)]), EXPR, Join([PrintExprlist(e)]), OfNode(e))
  {
    ExprlistDerives(e);
    BranchDerives1(12, Part(ExprlistTree(e), PrintExprlist(e), OfNode(e)));
  }

  lemma {:induction false} PrintListDerives(e: Node, level: int)
    requires Query(e) && Exprlist(e) && level <= 4
    ensures ExprDerives(e, level)
  {
    ListDerives(e);
  }

  lemma {:induction false} PrintedDerives(e: Node, level: int)
    requires Query(e)
    ensures ExprDerives(e, level)
    decreases e, level
  {
    if Binding(e) < level && level > 1 {
      PrintedDerives(e, 1);
      ParenthesesDerive(e, level);
    } else {
      match e
      case Or(l, r) =>
        PrintedDerives(l, 1);
        PrintedDerives(r, 2);
        PrintOrDerives(e, level);
      case And(l, r) =>
        PrintedDerives(l, 2);
        PrintedDerives(r, 3);
        PrintAndDerives(e, level);
      case Not(l, r) =>
        PrintedDerives(l, 3);
        PrintedDerives(r, 4);
        PrintNotDerives(e, level);
      case Within(n, c) =>
        if n.Match? {
          FilteredMatch(e);
          PrintListDerives(e, level);
        } else {
          PrintedDerives(n, 1);
          PrintFilterDerives(e, level);
        }
      case Match(_) => PrintListDerives(e, level);
      case ImplicitAnd(_, _) => PrintListDerives(e, level);
    }
  }

  // ---------------------------------------------------------------- the round trip

  /** The derivation of a printed query from the start symbol. */
  function InputTree(e: Node): Tree
    requires Query(e)
  {
    Branch(0, [ExprTree(e, 1)])
  }

  /** The stack entries, with the bottom one, that parsing the printed query takes. */
  function StackUse(e: Node): nat
    requires Query(e)
  {
    1 + Need(InputTree(e))
  }

  lemma {:induction false} PrintedIsDerivable(e: Node)
    requires Query(e)
    ensures AcceptedBy(InputTree(e), Print(e, 1), OfNode(e))
    ensures Tokens(Print(e, 1)) && NoEnd(Print(e, 1))
  {
    PrintedDerives(e, 1);
    BranchDerives1(0, Part(ExprTree(e, 1), Print(e, 1), OfNode(e)));
    JoinOne(Print(e, 1));
    DerivedTokens(InputTree(e));
  }

  lemma JoinOne(part: seq<Token>)
    ensures Join([part]) == part
  {
    assert [part][1..] == [];
  }

  /** No rule mentions end of input. */
  lemma {:induction false} DerivedTokens(t: Tree)
    requires Derivation(t) && Root(t) != 0
    ensures Tokens(Yield(t)) && NoEnd(Yield(t))
    decreases t, 1
  {
    if t.Branch? {
      DerivedTokensAll(t.kids);
    }
  }

  lemma {:induction false} DerivedTokensAll(ts: seq<Tree>)
    requires Derivations(ts) && forall i :: 0 <= i < |ts| ==> Roots(ts)[i] != 0
    ensures Tokens(Yields(ts)) && NoEnd(Yields(ts))
    decreases ts, 0
  {
    if ts != [] {
      assert Roots(ts)[0] == Root(ts[0]);
      DerivedTokens(ts[0]);
      forall i | 0 <= i < |ts| - 1 ensures Roots(ts[1..])[i] != 0 {
        assert Roots(ts[1..])[i] == Roots(ts)[i + 1];
      }
      DerivedTokensAll(ts[1..]);
    }
  }

  /** Round trip: for every query tree, printing it and parsing the tokens rebuilds the tree. */
  lemma {:induction false} PrintThenParse(e: Node, end: Token)
    requires Query(e) && end.major == 0
    ensures Tokens(Print(e, 1)) && NoEnd(Print(e, 1))
    ensures Outcome(None, Print(e, 1), end) == Accepted(OfNode(e))
  {
    PrintedIsDerivable(e);
    AcceptsIffDerivable(Print(e, 1), OfNode(e), end);
  }

  /** With a bounded stack the round trip works exactly for the trees whose printed form needs
      no more entries than the stack has; all others overflow. */
  lemma {:induction false} BoundedPrintThenParse(cap: nat, e: Node, end: Token)
    requires cap >= 1 && Query(e) && end.major == 0
    ensures Tokens(Print(e, 1)) && NoEnd(Print(e, 1))
    ensures Outcome(Some(cap), Print(e, 1), end) == if StackUse(e) <= cap then Accepted(OfNode(e)) else Overflowed
  {
    PrintedIsDerivable(e);
    BoundedAcceptsIff(cap, Print(e, 1), OfNode(e), end);
  }

  /** Different trees print differently. */
  lemma {:induction false} PrintIsInjective(e: Node, e': Node)
    requires Query(e) && Query(e') && Print(e, 1) == Print(e', 1)
    ensures e == e'
  {
    PrintThenParse(e, Token(0, ""));
    PrintThenParse(e', Token(0, ""));
  }

  /** Every accepted query denotes a tree, and its printed form is accepted with the same tree:
      printing normalises queries without changing what they mean. */
  lemma ParseThenPrint(cap: Capacity, query: seq<Token>, end: Token)
    requires Tokens(query) && NoEnd(query) && end.major == 0 && Fits(cap, 1)
    requires Outcome(cap, query, end).Accepted?
    ensures var v := Outcome(cap, query, end).value;
            v.OfNode? && Query(v.node) && Tokens(Print(v.node, 1)) && NoEnd(Print(v.node, 1))
            && Outcome(None, Print(v.node, 1), end) == Accepted(v)
  {
    AlwaysEnds(cap, query + [end]);
    AcceptanceIsSound(cap, query, end);
    var v := Outcome(cap, query, end).value;
    var t :| AcceptedBy(t, query, v);
    ValueIsTyped(t);
    PrintThenParse(v.node, end);
  }
}
