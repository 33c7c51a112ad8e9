/** What an accepted FTS5 query means, read off its tokens (fts5parse.y): the column filters, the
    phrases and the NEAR groups that the actions build, the search that the tree stands for, and
    the braces, parentheses and texts that make no difference. */
module Fts5Meaning {
  import opened Options
  import opened LemonDriver
  import opened Fts5Tables
  import opened Fts5Grammar
  import opened Fts5Soundness
  import opened Fts5Runs
  import opened Fts5Language
  import opened Fts5RoundTrip

  // ---------------------------------------------------------------- trees

  /** A tree with a terminal at its root is a leaf. */
  lemma {:induction false} TerminalIsLeaf(t: Tree)
    requires Derivation(t) && Root(t) < INPUT
    ensures t.Leaf? && Yield(t) == [t.token] && Value(t) == Text(Some(t.token.text))
  {
  }

  lemma {:induction false} KidIs(t: Tree, i: nat)
    requires Derivation(t) && t.Branch? && i < |Rhs(t.rule)|
    ensures |t.kids| == |Rhs(t.rule)|
    ensures Derivation(t.kids[i]) && Root(t.kids[i]) == Rhs(t.rule)[i] && Values(t.kids)[i] == Value(t.kids[i])
  {
    DerivationsAt(t.kids, i);
    ValuesAt(t.kids, i);
    assert Roots(t.kids)[i] == Root(t.kids[i]);
  }

  lemma {:induction false} YieldsOfTwo(ts: seq<Tree>)
    requires |ts| == 2
    ensures Yields(ts) == Yield(ts[0]) + Yield(ts[1])
  {
    YieldOfOne(ts[1..]);
  }

  lemma {:induction false} YieldsOfThree(ts: seq<Tree>)
    requires |ts| == 3
    ensures Yields(ts) == Yield(ts[0]) + (Yield(ts[1]) + Yield(ts[2]))
  {
    YieldsOfTwo(ts[1..]);
  }

  lemma {:induction false} YieldsOfFour(ts: seq<Tree>)
    requires |ts| == 4
    ensures Yields(ts) == Yield(ts[0]) + (Yield(ts[1]) + (Yield(ts[2]) + Yield(ts[3])))
  {
    YieldsOfThree(ts[1..]);
  }

  lemma {:induction false} YieldsOfFive(ts: seq<Tree>)
    requires |ts| == 5
    ensures Yields(ts) == Yield(ts[0]) + (Yield(ts[1]) + (Yield(ts[2]) + (Yield(ts[3]) + Yield(ts[4]))))
  {
    YieldsOfFour(ts[1..]);
  }

  // ---------------------------------------------------------------- column filters

  /** The texts of the STRING tokens. */
  function Words(ts: seq<Token>): seq<string> {
    if ts == [] then [] else (if ts[0].major == STRING then [ts[0].text] else []) + Words(ts[1..])
  }

  lemma {:induction false} WordsAppend(a: seq<Token>, b: seq<Token>)
    ensures Words(a + b) == Words(a) + Words(b)
  {
    if a == [] {
      assert a + b == b;
    } else {
      assert (a + b)[1..] == a[1..] + b;
      WordsAppend(a[1..], b);
    }
  }

  lemma WordsOfOne(token: Token)
    ensures Words([token]) == if token.major == STRING then [token.text] else []
  {
    assert Words([token][1..]) == [];
  }

  /** A list of columns and whether it is what is left out. */
  datatype Filter = Filter(columns: seq<string>, inverted: bool)

  function NamesOf(c: Colset): seq<string> {
    match c
    case Column(name) => [name]
    case Columns(rest, name) => NamesOf(rest) + [name]
    case Inverted(d) => NamesOf(d)
  }

  function FilterOf(c: Colset): Filter { Filter(NamesOf(c), c.Inverted?) }

  /** A filter as it is written: its words, and a minus in front. */
  function ReadFilter(ts: seq<Token>): Filter { Filter(Words(ts), ts != [] && ts[0].major == MINUS) }

  lemma {:induction false} ColumnsAreRead(t: Tree)
    requires Derivation(t) && Root(t) == COLSETLIST
    ensures Value(t).OfColset? && ColumnList(Value(t).colset)
    ensures NamesOf(Value(t).colset) == Words(Yield(t))
  {
    assert t.Branch? && (t.rule == 5 || t.rule == 6);
    KidIs(t, 0);
    if t.rule == 6 {
      TerminalIsLeaf(t.kids[0]);
      YieldOfOne(t.kids);
      WordsOfOne(t.kids[0].token);
    } else {
      KidIs(t, 1);
      ColumnsAreRead(t.kids[0]);
      TerminalIsLeaf(t.kids[1]);
      YieldsOfTwo(t.kids);
      WordsOfOne(t.kids[1].token);
      WordsAppend(Yield(t.kids[0]), Yield(t.kids[1]));
    }
  }

  /** The value of a column filter is what is written: with braces or without, one column or more. */
  lemma {:induction false} FilterIsRead(t: Tree)
    requires Derivation(t) && Root(t) == COLSET
    ensures Value(t).OfColset? && ColumnFilter(Value(t).colset)
    ensures FilterOf(Value(t).colset) == ReadFilter(Yield(t))
  {
    assert t.Branch? && 1 <= t.rule <= 4;
    if t.rule == 3 {
      WordIsRead(t);
    } else if t.rule == 4 {
      MinusWordIsRead(t);
    } else if t.rule == 2 {
      BracesAreRead(t);
    } else {
      MinusBracesAreRead(t);
    }
  }

  lemma {:induction false} WordIsRead(t: Tree)
    requires Derivation(t) && t.Branch? && t.rule == 3
    ensures Value(t).OfColset? && ColumnFilter(Value(t).colset)
    ensures FilterOf(Value(t).colset) == ReadFilter(Yield(t))
  {
    KidIs(t, 0);
    TerminalIsLeaf(t.kids[0]);
    YieldOfOne(t.kids);
    WordsOfOne(t.kids[0].token);
  }

  lemma {:induction false} MinusWordIsRead(t: Tree)
    requires Derivation(t) && t.Branch? && t.rule == 4
    ensures Value(t).OfColset? && ColumnFilter(Value(t).colset)
    ensures FilterOf(Value(t).colset) == ReadFilter(Yield(t))
  {
    KidIs(t, 0);
    KidIs(t, 1);
    TerminalIsLeaf(t.kids[0]);
    TerminalIsLeaf(t.kids[1]);
    YieldsOfTwo(t.kids);
    WordsOfOne(t.kids[0].token);
    WordsOfOne(t.kids[1].token);
    WordsAppend(Yield(t.kids[0]), Yield(t.kids[1]));
    assert NamesOf(Value(t).colset) == NamesOf(Value(t).colset.colset) == [t.kids[1].token.text];
  }

  lemma {:induction false} BracesAreRead(t: Tree)
    requires Derivation(t) && t.Branch? && t.rule == 2
    ensures Value(t).OfColset? && ColumnFilter(Value(t).colset)
    ensures FilterOf(Value(t).colset) == ReadFilter(Yield(t))
  {
    KidIs(t, 0);
    KidIs(t, 1);
    KidIs(t, 2);
    TerminalIsLeaf(t.kids[0]);
    TerminalIsLeaf(t.kids[2]);
    ColumnsAreRead(t.kids[1]);
    YieldsOfThree(t.kids);
    WordsOfOne(t.kids[0].token);
    WordsOfOne(t.kids[2].token);
    WordsAppend(Yield(t.kids[1]), Yield(t.kids[2]));
    WordsAppend(Yield(t.kids[0]), Yield(t.kids[1]) + Yield(t.kids[2]));
    assert ReadFilter(Yield(t)).columns == NamesOf(Value(t).colset);
  }

  lemma {:induction false} MinusBracesAreRead(t: Tree)
    requires Derivation(t) && t.Branch? && t.rule == 1
    ensures Value(t).OfColset? && ColumnFilter(Value(t).colset)
    ensures FilterOf(Value(t).colset) == ReadFilter(Yield(t))
  {
    KidIs(t, 0);
    KidIs(t, 1);
    KidIs(t, 2);
    KidIs(t, 3);
    TerminalIsLeaf(t.kids[0]);
    TerminalIsLeaf(t.kids[1]);
    TerminalIsLeaf(t.kids[3]);
    ColumnsAreRead(t.kids[2]);
    YieldsOfFour(t.kids);
    WordsOfOne(t.kids[0].token);
    WordsOfOne(t.kids[1].token);
    WordsOfOne(t.kids[3].token);
    WordsAppend(Yield(t.kids[2]), Yield(t.kids[3]));
    WordsAppend(Yield(t.kids[1]), Yield(t.kids[2]) + Yield(t.kids[3]));
    WordsAppend(Yield(t.kids[0]), Yield(t.kids[1]) + (Yield(t.kids[2]) + Yield(t.kids[3])));
  }

  /** The columns that a filter lets through. */
  predicate Admits(c: Colset, col: string) {
    match c
    case Column(name) => name == col
    case Columns(rest, name) => name == col || Admits(rest, col)
    case Inverted(d) => !Admits(d, col)
  }

  lemma {:induction false} ListAdmits(c: Colset, col: string)
    requires ColumnList(c)
    ensures Admits(c, col) <==> col in NamesOf(c)
  {
    if c.Columns? { ListAdmits(c.rest, col); }
  }

  lemma {:induction false} InWords(ts: seq<Token>, col: string)
    ensures col in Words(ts) <==> exists k :: 0 <= k < |ts| && ts[k] == Token(STRING, col)
  {
    if ts != [] {
      InWords(ts[1..], col);
      if k :| 0 <= k < |ts[1..]| && ts[1..][k] == Token(STRING, col) { assert ts[k + 1] == Token(STRING, col); }
      if k :| 0 <= k < |ts| && ts[k] == Token(STRING, col) {
        if k > 0 { assert ts[1..][k - 1] == Token(STRING, col); }
      }
    }
  }

  /** A column is let through exactly if it is one of the words, or, behind a minus, exactly if it
      is none of them. */
  lemma {:induction false} FilterAdmits(t: Tree, col: string)
    requires Derivation(t) && Root(t) == COLSET
    ensures Value(t).OfColset? && Yield(t) != []
    ensures Admits(Value(t).colset, col) <==>
      (exists k :: 0 <= k < |Yield(t)| && Yield(t)[k] == Token(STRING, col)) != (Yield(t)[0].major == MINUS)
  {
    FilterIsRead(t);
    var c := Value(t).colset;
    ListAdmits(if c.Inverted? then c.colset else c, col);
    InWords(Yield(t), col);
    NamesAreSome(c);
  }

  lemma {:induction false} NamesAreSome(c: Colset)
    ensures NamesOf(c) != []
  {
    if c.Inverted? { NamesAreSome(c.colset); }
  }

  // ---------------------------------------------------------------- phrases and groups

  datatype SearchWord = SearchWord(text: string, prefix: bool)

  function WordsOf(p: Phrase): seq<SearchWord> {
    match p
    case Term(w, prefix) => [SearchWord(w, prefix)]
    case Plus(rest, w, prefix) => WordsOf(rest) + [SearchWord(w, prefix)]
    case Caret(q) => WordsOf(q)
  }

  /** A word joined to the last phrase. */
  function Joined(ps: seq<seq<SearchWord>>, w: SearchWord): seq<seq<SearchWord>> {
    if ps == [] then [[w]] else ps[..|ps| - 1] + [ps[|ps| - 1] + [w]]
  }

  /** The last word made a prefix. */
  function Starred(ps: seq<seq<SearchWord>>): seq<seq<SearchWord>> {
    if ps == [] || ps[|ps| - 1] == [] then ps
    else
      var p := ps[|ps| - 1];
      ps[..|ps| - 1] + [p[..|p| - 1] + [p[|p| - 1].(prefix := true)]]
  }

  function Last(ts: seq<Token>): int { if ts == [] then 0 else ts[|ts| - 1].major }

  /** The phrases with one token more: a word behind a plus belongs to the phrase in front of it,
      every other word starts one, and a star makes the word in front of it a prefix. */
  function Pushed(ps: seq<seq<SearchWord>>, last: int, token: Token): seq<seq<SearchWord>> {
    if token.major == STRING && last == PLUS then Joined(ps, SearchWord(token.text, false))
    else if token.major == STRING then ps + [[SearchWord(token.text, false)]]
    else if token.major == STAR then Starred(ps)
    else ps
  }

  /** The phrases as they are written. */
  function Phrases(ts: seq<Token>): seq<seq<SearchWord>> {
    if ts == [] then [] else
      var n := |ts| - 1;
      Pushed(Phrases(ts[..n]), Last(ts[..n]), ts[n])
  }

  lemma {:induction false} PhrasesPush(ts: seq<Token>, token: Token)
    ensures Phrases(ts + [token]) == Pushed(Phrases(ts), Last(ts), token)
  {
    assert (ts + [token])[..|ts|] == ts;
  }

  /** The tokens of a phrase: words, pluses and stars, the first one a word. */
  ghost predicate PhraseTokens(ts: seq<Token>) {
    && ts != [] && ts[0].major == STRING
    && forall i :: 0 <= i < |ts| ==> ts[i].major == STRING || ts[i].major == STAR || ts[i].major == PLUS
  }

  lemma JoinedBehind(a: seq<seq<SearchWord>>, b: seq<seq<SearchWord>>, w: SearchWord)
    requires b != []
    ensures Joined(a + b, w) == a + Joined(b, w)
  {
  }

  lemma StarredBehind(a: seq<seq<SearchWord>>, b: seq<seq<SearchWord>>)
    requires b != []
    ensures Starred(a + b) == a + Starred(b)
  {
  }

  lemma PushedBehind(a: seq<seq<SearchWord>>, b: seq<seq<SearchWord>>, last: int, token: Token)
    requires b != []
    ensures Pushed(b, last, token) != [] && Pushed(a + b, last, token) == a + Pushed(b, last, token)
  {
    JoinedBehind(a, b, SearchWord(token.text, false));
    StarredBehind(a, b);
  }

  ghost predicate Behind(a: seq<Token>, b: seq<Token>) {
    Phrases(b) != [] && Phrases(a + b) == Phrases(a) + Phrases(b)
  }

  lemma BehindFirst(a: seq<Token>, x: Token)
    requires Last(a) != PLUS && x.major == STRING
    ensures Behind(a, [x])
  {
    PhrasesPush(a, x);
    PhrasesPush([], x);
    assert [] + [x] == [x];
  }

  lemma BehindPush(a: seq<Token>, c: seq<Token>, x: Token)
    requires c != [] && Behind(a, c)
    ensures Behind(a, c + [x])
  {
    PhrasesPush(c, x);
    PhrasesPush(a + c, x);
    assert a + (c + [x]) == (a + c) + [x];
    PushedBehind(Phrases(a), Phrases(c), Last(c), x);
  }

  /** A phrase written behind other tokens is a phrase of its own. */
  lemma {:induction false} PhrasesBehind(a: seq<Token>, b: seq<Token>)
    requires Last(a) != PLUS && b != [] && b[0].major == STRING
    ensures Behind(a, b)
    decreases |b|
  {
    var n := |b| - 1;
    assert b == b[..n] + [b[n]];
    if n == 0 {
      assert b[..n] == [] && b == [b[n]];
      BehindFirst(a, b[n]);
    } else {
      PhrasesBehind(a, b[..n]);
      BehindPush(a, b[..n], b[n]);
    }
  }

  /** The star behind a word, or nothing. */
  lemma {:induction false} StarIsRead(t: Tree)
    requires Derivation(t) && Root(t) == STAROPT
    ensures Value(t).Flag? && IsStar(Yield(t), Value(t).value)
  {
    assert t.Branch? && (t.rule == 26 || t.rule == 27);
    if t.rule == 26 {
      KidIs(t, 0);
      TerminalIsLeaf(t.kids[0]);
      YieldOfOne(t.kids);
    } else {
      assert t.kids == [];
    }
  }

  /** What the tokens of a phrase say, and which they are. */
  ghost predicate PhraseIs(v: Minor, ts: seq<Token>) {
    && v.OfPhrase? && PlainPhrase(v.phrase) && Phrases(ts) == [WordsOf(v.phrase)]
    && PhraseTokens(ts) && Last(ts) != PLUS && (|ts| > 1 ==> ts[1].major != LP)
  }

  ghost predicate IsStar(star: seq<Token>, prefix: bool) {
    if prefix then |star| == 1 && star[0].major == STAR else star == []
  }

  lemma {:induction false} StarPushed(ts: seq<Token>, star: seq<Token>, prefix: bool)
    requires IsStar(star, prefix)
    ensures Phrases(ts + star) == if prefix then Starred(Phrases(ts)) else Phrases(ts)
  {
    if prefix {
      assert star == [star[0]];
      PhrasesPush(ts, star[0]);
    } else {
      assert ts + star == ts;
    }
  }

  lemma StarredIs(p: seq<SearchWord>, w: string)
    ensures Starred([p + [SearchWord(w, false)]]) == [p + [SearchWord(w, true)]]
  {
  }

  lemma {:induction false} PhraseIsRead(t: Tree)
    requires Derivation(t) && Root(t) == PHRASE
    ensures PhraseIs(Value(t), Yield(t))
  {
    assert t.Branch? && (t.rule == 24 || t.rule == 25);
    KidIs(t, 0);
    KidIs(t, 1);
    if t.rule == 25 {
      TerminalIsLeaf(t.kids[0]);
      StarIsRead(t.kids[1]);
      YieldsOfTwo(t.kids);
      TermIsRead(t.kids[0].token, Yield(t.kids[1]), Value(t.kids[1]).value);
    } else {
      KidIs(t, 2);
      KidIs(t, 3);
      PhraseIsRead(t.kids[0]);
      TerminalIsLeaf(t.kids[1]);
      TerminalIsLeaf(t.kids[2]);
      StarIsRead(t.kids[3]);
      YieldsOfFour(t.kids);
      PlusIsRead(Value(t.kids[0]), Yield(t.kids[0]), t.kids[1].token, t.kids[2].token, Yield(t.kids[3]),
        Value(t.kids[3]).value);
    }
  }

  lemma PhrasesOfOne(token: Token)
    ensures Phrases([token]) == if token.major == STRING then [[SearchWord(token.text, false)]] else []
  {
    PhrasesPush([], token);
    assert [] + [token] == [token];
  }

  lemma StarredOne(w: string)
    ensures Starred([[SearchWord(w, false)]]) == [[SearchWord(w, true)]]
  {
    var p := [SearchWord(w, false)];
    var ps := [p];
    assert p[..|p| - 1] == [] && ps[..|ps| - 1] == [];
    assert p[..|p| - 1] + [SearchWord(w, true)] == [SearchWord(w, true)];
  }

  lemma TermTokens(token: Token, star: seq<Token>, prefix: bool)
    requires token.major == STRING && IsStar(star, prefix)
    ensures var ts := [token] + star;
      PhraseTokens(ts) && Last(ts) != PLUS && (|ts| > 1 ==> ts[1].major != LP)
  {
  }

  lemma TermIsRead(token: Token, star: seq<Token>, prefix: bool)
    requires token.major == STRING && IsStar(star, prefix)
    ensures PhraseIs(OfPhrase(Term(token.text, prefix)), [token] + star)
  {
    PhrasesOfOne(token);
    StarPushed([token], star, prefix);
    StarredOne(token.text);
    TermTokens(token, star, prefix);
  }

  lemma PlusIsRead(v: Minor, ts: seq<Token>, plus: Token, token: Token, star: seq<Token>, prefix: bool)
    requires PhraseIs(v, ts) && plus.major == PLUS && token.major == STRING && IsStar(star, prefix)
    ensures PhraseIs(OfPhrase(Plus(v.phrase, token.text, prefix)), ts + ([plus] + ([token] + star)))
  {
    var all := ts + [plus] + [token] + star;
    assert ts + ([plus] + ([token] + star)) == all;
    PhrasesPush(ts, plus);
    PhrasesPush(ts + [plus], token);
    StarPushed(ts + [plus] + [token], star, prefix);
    StarredIs(WordsOf(v.phrase), token.text);
    TokensPushed(ts, plus, token, star, prefix);
  }

  lemma TokensPushed(ts: seq<Token>, plus: Token, token: Token, star: seq<Token>, prefix: bool)
    requires PhraseTokens(ts) && plus.major == PLUS && token.major == STRING && IsStar(star, prefix)
    requires |ts| > 1 ==> ts[1].major != LP
    ensures var all := ts + [plus] + [token] + star;
      PhraseTokens(all) && Last(all) != PLUS && |all| > 1 && all[1].major != LP
  {
  }

  /** What is searched for: a phrase, with a caret or not, or a group of phrases with its name and
      its distance. */
  datatype Group = Group(name: Option<string>, caret: bool, phrases: seq<seq<SearchWord>>, distance: Option<string>)

  function GroupOf(n: Near): Group {
    match n
    case Single(p) => Group(None, p.Caret?, [WordsOf(p)], None)
    case Append(rest, p) => var g := GroupOf(rest); g.(phrases := g.phrases + [WordsOf(p)])
    case Distance(name, near, d) => GroupOf(near).(name := Some(name), distance := d)
  }

  /** The distance at the end of a group, behind a comma. */
  function ReadDistance(ts: seq<Token>): Option<string> {
    if |ts| >= 2 && ts[|ts| - 2].major == COMMA then Some(ts[|ts| - 1].text) else None
  }

  /** A group as it is written. */
  function ReadGroup(ts: seq<Token>): Group {
    if |ts| > 2 && ts[1].major == LP then
      var inner := ts[2..|ts| - 1];
      var d := ReadDistance(inner);
      Group(Some(ts[0].text), false, Phrases(if d.Some? then inner[..|inner| - 2] else inner), d)
    else
      Group(None, ts != [] && ts[0].major == CARET, Phrases(ts), None)
  }

  ghost predicate ListIs(v: Minor, ts: seq<Token>) {
    && v.OfNear? && GroupOf(v.near) == Group(None, false, Phrases(ts), None)
    && PhraseTokens(ts) && Last(ts) != PLUS
  }

  lemma {:induction false} ListIsRead(t: Tree)
    requires Derivation(t) && Root(t) == NEARPHRASES
    ensures ListIs(Value(t), Yield(t))
  {
    assert t.Branch? && (t.rule == 20 || t.rule == 21);
    KidIs(t, 0);
    if t.rule == 20 {
      PhraseIsRead(t.kids[0]);
      YieldOfOne(t.kids);
    } else {
      KidIs(t, 1);
      ListIsRead(t.kids[0]);
      PhraseIsRead(t.kids[1]);
      YieldsOfTwo(t.kids);
      PhrasesBehind(Yield(t.kids[0]), Yield(t.kids[1]));
    }
  }

  ghost predicate IsDistance(dist: seq<Token>, d: Option<string>) {
    if d.Some? then |dist| == 2 && dist[0].major == COMMA && dist[1].text == d.value else dist == []
  }

  lemma {:induction false} DistanceIsRead(t: Tree)
    requires Derivation(t) && Root(t) == NEARDIST
    ensures Value(t).Text? && IsDistance(Yield(t), Value(t).text)
  {
    assert t.Branch? && (t.rule == 22 || t.rule == 23);
    if t.rule == 23 {
      KidIs(t, 0);
      KidIs(t, 1);
      TerminalIsLeaf(t.kids[0]);
      TerminalIsLeaf(t.kids[1]);
      YieldsOfTwo(t.kids);
    } else {
      assert t.kids == [];
    }
  }

  lemma DistanceRead(ts: seq<Token>, dist: seq<Token>, d: Option<string>)
    requires PhraseTokens(ts) && IsDistance(dist, d)
    ensures ReadDistance(ts + dist) == d && (if d.Some? then (ts + dist)[..|ts + dist| - 2] else ts + dist) == ts
  {
  }

  lemma InnerIs(name: Token, lp: Token, ts: seq<Token>, rp: Token)
    ensures var all := [name] + ([lp] + (ts + [rp]));
      |all| == |ts| + 3 && all[0] == name && all[1] == lp && all[2..|all| - 1] == ts
  {
  }

  /** The group is read back from its name, its phrases and its distance. */
  lemma {:induction false} GroupIsRead(name: Token, lp: Token, ts: seq<Token>, dist: seq<Token>, d: Option<string>,
                                       rp: Token)
    requires name.major == STRING && lp.major == LP && PhraseTokens(ts) && IsDistance(dist, d)
    ensures ReadGroup([name] + ([lp] + (ts + (dist + [rp])))) == Group(Some(name.text), false, Phrases(ts), d)
  {
    InnerIs(name, lp, ts + dist, rp);
    assert ts + (dist + [rp]) == (ts + dist) + [rp];
    DistanceRead(ts, dist, d);
  }

  /** The value of a search term is what is written. */
  lemma {:induction false} NearIsRead(t: Tree)
    requires Derivation(t) && Root(t) == NEARSET
    ensures Value(t).OfNear? && GroupOf(Value(t).near) == ReadGroup(Yield(t))
  {
    assert t.Branch? && 17 <= t.rule <= 19;
    KidIs(t, 0);
    if t.rule == 17 {
      PhraseIsRead(t.kids[0]);
      YieldOfOne(t.kids);
    } else if t.rule == 18 {
      CaretIsRead(t);
    } else {
      NamedGroupIsRead(t);
    }
  }

  lemma {:induction false} CaretRead(caret: Token, ts: seq<Token>)
    requires caret.major == CARET && PhraseTokens(ts)
    ensures ReadGroup([caret] + ts) == Group(None, true, Phrases(ts), None)
  {
    PhrasesOfOne(caret);
    PhrasesBehind([caret], ts);
    assert ([caret] + ts)[1] == ts[0];
    assert [] + Phrases(ts) == Phrases(ts);
  }

  lemma {:induction false} CaretIsRead(t: Tree)
    requires Derivation(t) && t.Branch? && t.rule == 18
    ensures Value(t).OfNear? && GroupOf(Value(t).near) == ReadGroup(Yield(t))
  {
    KidIs(t, 0);
    KidIs(t, 1);
    TerminalIsLeaf(t.kids[0]);
    PhraseIsRead(t.kids[1]);
    YieldsOfTwo(t.kids);
    CaretRead(t.kids[0].token, Yield(t.kids[1]));
  }

  lemma {:induction false} NamedGroupIsRead(t: Tree)
    requires Derivation(t) && t.Branch? && t.rule == 19
    ensures Value(t).OfNear? && GroupOf(Value(t).near) == ReadGroup(Yield(t))
  {
    KidIs(t, 0);
    KidIs(t, 1);
    KidIs(t, 2);
    KidIs(t, 3);
    KidIs(t, 4);
    TerminalIsLeaf(t.kids[0]);
    TerminalIsLeaf(t.kids[1]);
    TerminalIsLeaf(t.kids[4]);
    ListIsRead(t.kids[2]);
    DistanceIsRead(t.kids[3]);
    YieldsOfFive(t.kids);
    GroupIsRead(t.kids[0].token, t.kids[1].token, Yield(t.kids[2]), Yield(t.kids[3]), Value(t.kids[3]).text,
      t.kids[4].token);
  }

  // ---------------------------------------------------------------- the search

  /** Whether a row is found, where `hit` says whether it has a group in the columns that all of
      the filters let through. */
  type Hit = (Group, seq<Filter>) -> bool

  predicate Finds(e: Node, hit: Hit, filters: seq<Filter>) {
    match e
    case Match(n) => hit(GroupOf(n), filters)
    case And(l, r) => Finds(l, hit, filters) && Finds(r, hit, filters)
    case Or(l, r) => Finds(l, hit, filters) || Finds(r, hit, filters)
    case Not(l, r) => Finds(l, hit, filters) && !Finds(r, hit, filters)
    case ImplicitAnd(l, r) => Finds(l, hit, filters) && Finds(r, hit, filters)
    case Within(n, c) => Finds(n, hit, filters + [FilterOf(c)])
  }

  /** The same, by how the query is written: search terms and filters are read off their tokens, an
      operator is its token, terms side by side must all be found, and parentheses group. */
  predicate Asks(t: Tree, hit: Hit, filters: seq<Filter>)
    decreases t
  {
    match t
    case Leaf(_) => false
    case Branch(rule, kids) =>
      if Root(t) == NEARSET then hit(ReadGroup(Yield(t)), filters)
      else if |kids| == 1 then Asks(kids[0], hit, filters)
      else if |kids| == 2 then Asks(kids[0], hit, filters) && Asks(kids[1], hit, filters)
      else if |kids| == 3 && Root(kids[1]) == AND then Asks(kids[0], hit, filters) && Asks(kids[2], hit, filters)
      else if |kids| == 3 && Root(kids[1]) == OR then Asks(kids[0], hit, filters) || Asks(kids[2], hit, filters)
      else if |kids| == 3 && Root(kids[1]) == NOT then Asks(kids[0], hit, filters) && !Asks(kids[2], hit, filters)
      else if |kids| == 3 && Root(kids[0]) == LP then Asks(kids[1], hit, filters)
      else if |kids| == 3 then Asks(kids[2], hit, filters + [ReadFilter(Yield(kids[0]))])
      else if |kids| == 5 then Asks(kids[3], hit, filters + [ReadFilter(Yield(kids[0]))])
      else false
  }

  predicate IsSearch(symbol: int) {
    symbol == INPUT || symbol == EXPR || symbol == EXPRLIST || symbol == CNEARSET
  }

  lemma SearchRules(rule: nat)
    requires rule < 28 && IsSearch(Lhs(rule))
    ensures rule == 0 || 7 <= rule <= 16
  {
  }

  ghost predicate MeansAs(t: Tree, hit: Hit, filters: seq<Filter>) {
    Value(t).OfNode? && (Finds(Value(t).node, hit, filters) <==> Asks(t, hit, filters))
  }

  lemma {:induction false} OneFinds(t: Tree, hit: Hit, filters: seq<Filter>)
    requires Derivation(t) && t.Branch? && (t.rule == 0 || t.rule == 12 || t.rule == 13) && |t.kids| == 1
    requires MeansAs(t.kids[0], hit, filters) && Values(t.kids)[0] == Value(t.kids[0])
    ensures MeansAs(t, hit, filters)
  {
  }

  lemma {:induction false} TermFinds(t: Tree, hit: Hit, filters: seq<Filter>)
    requires Derivation(t) && t.Branch? && t.rule == 15
    ensures MeansAs(t, hit, filters)
  {
    KidIs(t, 0);
    NearIsRead(t.kids[0]);
    assert t.kids[0].Branch?;
    assert Asks(t, hit, filters) == Asks(t.kids[0], hit, filters);
  }

  lemma {:induction false} ListFinds(t: Tree, hit: Hit, filters: seq<Filter>)
    requires Derivation(t) && t.Branch? && t.rule == 14 && |t.kids| == 2
    requires MeansAs(t.kids[0], hit, filters) && Values(t.kids)[0] == Value(t.kids[0])
    requires MeansAs(t.kids[1], hit, filters) && Values(t.kids)[1] == Value(t.kids[1])
    ensures MeansAs(t, hit, filters)
  {
  }

  lemma {:induction false} OperatorFinds(t: Tree, hit: Hit, filters: seq<Filter>)
    requires Derivation(t) && t.Branch? && 7 <= t.rule <= 9 && |t.kids| == 3
    requires Root(t.kids[1]) == Rhs(t.rule)[1]
    requires MeansAs(t.kids[0], hit, filters) && Values(t.kids)[0] == Value(t.kids[0])
    requires MeansAs(t.kids[2], hit, filters) && Values(t.kids)[2] == Value(t.kids[2])
    ensures MeansAs(t, hit, filters)
  {
  }

  lemma {:induction false} ParenthesesFind(t: Tree, hit: Hit, filters: seq<Filter>)
    requires Derivation(t) && t.Branch? && t.rule == 11 && |t.kids| == 3
    requires Root(t.kids[0]) == LP && Root(t.kids[1]) == EXPR
    requires MeansAs(t.kids[1], hit, filters) && Values(t.kids)[1] == Value(t.kids[1])
    ensures MeansAs(t, hit, filters)
  {
  }

  lemma {:induction false} FilteredFinds(t: Tree, hit: Hit, filters: seq<Filter>)
    requires Derivation(t) && t.Branch? && t.rule == 10 && |t.kids| == 5
    requires Root(t.kids[0]) == COLSET && Values(t.kids)[0] == Value(t.kids[0])
    requires MeansAs(t.kids[3], hit, filters + [ReadFilter(Yield(t.kids[0]))])
    requires Values(t.kids)[3] == Value(t.kids[3])
    ensures MeansAs(t, hit, filters)
  {
    DerivationsAt(t.kids, 0);
    FilterIsRead(t.kids[0]);
  }

  lemma {:induction false} FilteredTermFinds(t: Tree, hit: Hit, filters: seq<Filter>)
    requires Derivation(t) && t.Branch? && t.rule == 16
    ensures MeansAs(t, hit, filters)
  {
    KidIs(t, 0);
    KidIs(t, 1);
    KidIs(t, 2);
    FilterIsRead(t.kids[0]);
    NearIsRead(t.kids[2]);
    FilteredTermAsks(t, hit, filters);
    FilteredTermIsBuilt(Value(t.kids[0]), Value(t.kids[2]), Values(t.kids), hit, filters);
  }

  lemma {:induction false} FilteredTermAsks(t: Tree, hit: Hit, filters: seq<Filter>)
    requires t.Branch? && t.rule == 16 && |t.kids| == 3 && t.kids[2].Branch?
    requires Root(t.kids[0]) == COLSET && Root(t.kids[1]) == COLON && Root(t.kids[2]) == NEARSET
    ensures Asks(t, hit, filters) ==
      hit(ReadGroup(Yield(t.kids[2])), filters + [ReadFilter(Yield(t.kids[0]))])
  {
  }

  lemma {:induction false} FilteredTermIsBuilt(c: Minor, m: Minor, v: seq<Minor>, hit: Hit, filters: seq<Filter>)
    requires |v| == 3 && v[0] == c && v[2] == m && c.OfColset? && m.OfNear?
    ensures Act(16, v).OfNode?
    ensures Finds(Act(16, v).node, hit, filters) == hit(GroupOf(m.near), filters + [FilterOf(c.colset)])
  {
    assert Finds(Act(16, v).node, hit, filters) == Finds(Match(m.near), hit, filters + [FilterOf(c.colset)]);
  }

  /** The tree that the actions build finds what the query asks for. */
  lemma {:induction false} FindsWhatIsAsked(t: Tree, hit: Hit, filters: seq<Filter>)
    requires Derivation(t) && IsSearch(Root(t))
    ensures MeansAs(t, hit, filters)
    decreases t
  {
    assert t.Branch?;
    SearchRules(t.rule);
    KidIs(t, 0);
    if t.rule == 15 {
      TermFinds(t, hit, filters);
    } else if t.rule == 0 || t.rule == 12 || t.rule == 13 {
      FindsWhatIsAsked(t.kids[0], hit, filters);
      OneFinds(t, hit, filters);
    } else if t.rule == 14 {
      KidIs(t, 1);
      FindsWhatIsAsked(t.kids[0], hit, filters);
      FindsWhatIsAsked(t.kids[1], hit, filters);
      ListFinds(t, hit, filters);
    } else if t.rule == 11 {
      KidIs(t, 1);
      FindsWhatIsAsked(t.kids[1], hit, filters);
      ParenthesesFind(t, hit, filters);
    } else if t.rule <= 9 {
      KidIs(t, 1);
      KidIs(t, 2);
      FindsWhatIsAsked(t.kids[0], hit, filters);
      FindsWhatIsAsked(t.kids[2], hit, filters);
      OperatorFinds(t, hit, filters);
    } else if t.rule == 10 {
      KidIs(t, 3);
      FindsWhatIsAsked(t.kids[3], hit, filters + [ReadFilter(Yield(t.kids[0]))]);
      FilteredFinds(t, hit, filters);
    } else {
      FilteredTermFinds(t, hit, filters);
    }
  }

  /** The tree of an accepted query finds what a precedence-respecting reading of it asks for. */
  lemma AcceptedFinds(query: seq<Token>, v: Minor, end: Token, hit: Hit)
    requires Tokens(query) && NoEnd(query) && end.major == 0
    requires Outcome(None, query, end) == Accepted(v)
    ensures v.OfNode?
    ensures exists t :: AcceptedBy(t, query, v) && (Finds(v.node, hit, []) <==> Asks(t, hit, []))
  {
    AcceptsIffDerivable(query, v, end);
    var t :| AcceptedBy(t, query, v);
    FindsWhatIsAsked(t, hit, []);
  }

  // ---------------------------------------------------------------- what makes no difference

  /** Filters that are written with the same words and the same sign have the same value, so that
      `{a}` is `a` and `-{a}` is `-a`. */
  lemma {:induction false} BracesMakeNoDifference(t: Tree, t': Tree)
    requires Derivation(t) && Root(t) == COLSET && Derivation(t') && Root(t') == COLSET
    requires ReadFilter(Yield(t)) == ReadFilter(Yield(t'))
    ensures Value(t) == Value(t')
  {
    FilterIsRead(t);
    FilterIsRead(t');
    SameNames(Value(t).colset, Value(t').colset);
  }

  lemma {:induction false} SameList(c: Colset, d: Colset)
    requires ColumnList(c) && ColumnList(d) && NamesOf(c) == NamesOf(d)
    ensures c == d
  {
    var a, b := NamesOf(c), NamesOf(d);
    assert a[|a| - 1] == b[|b| - 1];
    if c.Columns? { NamesAreSome(c.rest); }
    if d.Columns? { NamesAreSome(d.rest); }
    if c.Columns? && d.Columns? {
      assert NamesOf(c.rest) == a[..|a| - 1] && NamesOf(d.rest) == b[..|b| - 1];
      SameList(c.rest, d.rest);
    }
  }

  lemma SameNames(c: Colset, d: Colset)
    requires ColumnFilter(c) && ColumnFilter(d) && FilterOf(c) == FilterOf(d)
    ensures c == d
  {
    if c.Inverted? {
      assert NamesOf(c) == NamesOf(c.colset) && NamesOf(d) == NamesOf(d.colset);
      SameList(c.colset, d.colset);
    } else {
      SameList(c, d);
    }
  }

  function LeafPart(token: Token): Part { Part(Leaf(token), [token], Text(Some(token.text))) }

  lemma JoinOfThree(a: seq<Token>, b: seq<Token>, c: seq<Token>)
    ensures Join([a, b, c]) == a + (b + c)
  {
    assert [a, b, c][1..] == [b, c] && [b, c][1..] == [c];
    JoinOne(c);
  }

  lemma JoinOfFive(a: seq<Token>, b: seq<Token>, c: seq<Token>, d: seq<Token>, e: seq<Token>)
    ensures Join([a, b, c, d, e]) == a + (b + (c + (d + e)))
  {
    assert [a, b, c, d, e][1..] == [b, c, d, e] && [b, c, d, e][1..] == [c, d, e];
    JoinOfThree(c, d, e);
  }

  lemma UnitDerives(rule: nat, a: Part) returns (b: Part)
    requires rule < 28 && |Rhs(rule)| == 1 && Is(a, Rhs(rule)[0])
    ensures Is(b, Lhs(rule)) && b == Part(Branch(rule, [a.tree]), a.tokens, Act(rule, [a.value]))
  {
    BranchDerives1(rule, a);
    JoinOne(a.tokens);
    b := Part(Branch(rule, [a.tree]), a.tokens, Act(rule, [a.value]));
  }

  lemma TermAsExpr(a: Part) returns (b: Part)
    requires Is(a, CNEARSET)
    ensures a.value.OfNode? && Is(b, EXPR) && b.tokens == a.tokens && b.value == a.value
  {
    ValueIsTyped(a.tree);
    b := UnitDerives(13, a);
    b := UnitDerives(12, b);
  }

  lemma ExprIsAccepted(a: Part, end: Token)
    requires Is(a, EXPR) && end.major == 0
    ensures Tokens(a.tokens) && NoEnd(a.tokens) && Outcome(None, a.tokens, end) == Accepted(a.value)
  {
    ValueIsTyped(a.tree);
    var b := UnitDerives(0, a);
    DerivedTokens(b.tree);
    AcceptsIffDerivable(a.tokens, a.value, end);
    assert AcceptedBy(b.tree, a.tokens, a.value);
  }

  lemma InsideOf(t: Tree, query: seq<Token>, v: Minor) returns (e: Part)
    requires AcceptedBy(t, query, v)
    ensures Is(e, EXPR) && e.tokens == query && e.value == v && v.OfNode?
  {
    assert t.Branch? && t.rule == 0;
    KidIs(t, 0);
    YieldOfOne(t.kids);
    PrecedencesAt(t.kids, 0);
    ValueIsTyped(t.kids[0]);
    e := Part(t.kids[0], query, v);
  }

  lemma Parenthesised(lp: Token, a: Part, rp: Token) returns (b: Part)
    requires lp.major == LP && rp.major == RP && Is(a, EXPR) && a.value.OfNode?
    ensures Is(b, EXPR) && b.tokens == [lp] + (a.tokens + [rp]) && b.value == a.value
  {
    BranchDerives3(11, LeafPart(lp), a, LeafPart(rp));
    JoinOfThree([lp], a.tokens, [rp]);
    b := Part(Branch(11, [Leaf(lp), a.tree, Leaf(rp)]), [lp] + (a.tokens + [rp]), a.value);
  }

  /** A query in parentheses has the value of the query. */
  lemma ParenthesesMakeNoDifference(query: seq<Token>, v: Minor, lp: Token, rp: Token, end: Token)
    requires Tokens(query) && NoEnd(query) && end.major == 0 && lp.major == LP && rp.major == RP
    requires Outcome(None, query, end) == Accepted(v)
    ensures Outcome(None, [lp] + (query + [rp]), end) == Accepted(v)
  {
    AcceptsIffDerivable(query, v, end);
    var t :| AcceptedBy(t, query, v);
    var e := InsideOf(t, query, v);
    e := Parenthesised(lp, e, rp);
    ExprIsAccepted(e, end);
  }

  lemma FilteredTerm(c: Part, colon: Token, m: Part) returns (a: Part)
    requires Is(c, COLSET) && c.value.OfColset? && Is(m, NEARSET) && m.value.OfNear? && colon.major == COLON
    ensures Is(a, EXPR) && a.tokens == c.tokens + ([colon] + m.tokens)
    ensures a.value == OfNode(Within(Match(m.value.near), c.value.colset))
  {
    BranchDerives3(16, c, LeafPart(colon), m);
    JoinOfThree(c.tokens, [colon], m.tokens);
    a := TermAsExpr(Part(Branch(16, [c.tree, Leaf(colon), m.tree]), c.tokens + ([colon] + m.tokens),
      OfNode(Within(Match(m.value.near), c.value.colset))));
  }

  lemma FilteredExpr(c: Part, colon: Token, lp: Token, m: Part, rp: Token) returns (a: Part)
    requires Is(c, COLSET) && c.value.OfColset? && Is(m, EXPR) && m.value.OfNode?
    requires colon.major == COLON && lp.major == LP && rp.major == RP
    ensures Is(a, EXPR) && a.tokens == c.tokens + ([colon] + ([lp] + (m.tokens + [rp])))
    ensures a.value == OfNode(Within(m.value.node, c.value.colset))
  {
    BranchDerives5(10, c, LeafPart(colon), LeafPart(lp), m, LeafPart(rp));
    JoinOfFive(c.tokens, [colon], [lp], m.tokens, [rp]);
    a := Part(Branch(10, [c.tree, Leaf(colon), Leaf(lp), m.tree, Leaf(rp)]),
      c.tokens + ([colon] + ([lp] + (m.tokens + [rp]))), OfNode(Within(m.value.node, c.value.colset)));
  }

  /** A filtered term has the same value with and without parentheses around the term. */
  lemma FilterParenthesesMakeNoDifference(c: Part, colon: Token, m: Part, lp: Token, rp: Token, end: Token)
    requires Is(c, COLSET) && Is(m, NEARSET)
    requires colon.major == COLON && lp.major == LP && rp.major == RP && end.major == 0
    ensures var a, b := c.tokens + ([colon] + m.tokens), c.tokens + ([colon] + ([lp] + (m.tokens + [rp])));
      && Tokens(a) && NoEnd(a) && Tokens(b) && NoEnd(b) && c.value.OfColset? && m.value.OfNear?
      && Outcome(None, a, end) == Outcome(None, b, end) == Accepted(OfNode(Within(Match(m.value.near), c.value.colset)))
  {
    ValueIsTyped(c.tree);
    ValueIsTyped(m.tree);
    var a := FilteredTerm(c, colon, m);
    ExprIsAccepted(a, end);
    var b := UnitDerives(15, m);
    b := TermAsExpr(b);
    b := FilteredExpr(c, colon, lp, b, rp);
    ExprIsAccepted(b, end);
  }

  // ---------------------------------------------------------------- the texts of the operators

  /** The same tokens, up to the texts of those that are no words. */
  ghost predicate Alike(a: seq<Token>, b: seq<Token>) {
    && |a| == |b|
    && forall i :: 0 <= i < |a| ==> a[i].major == b[i].major && (a[i].major == STRING ==> a[i] == b[i])
  }

  /** The values agree wherever an action can look. */
  ghost predicate SameValue(symbol: int, v: Minor, w: Minor) {
    symbol >= INPUT || symbol == STRING ==> v == w
  }

  ghost predicate SameValues(symbols: seq<int>, v: seq<Minor>, w: seq<Minor>) {
    && |symbols| == |v| == |w|
    && forall i :: 0 <= i < |v| ==> SameValue(symbols[i], v[i], w[i])
  }

  /** No action reads the text of a token other than a word. */
  lemma OperatorTextsAreIgnored(rule: nat, v: seq<Minor>, w: seq<Minor>)
    requires rule < 28 && SameValues(Rhs(rule), v, w)
    ensures Act(rule, v) == Act(rule, w)
  {
    forall i | 0 <= i < |v| ensures SameValue(Rhs(rule)[i], v[i], w[i]) {
    }
  }

  ghost predicate Rewritten(t: Tree, b: seq<Token>, u: Tree) {
    && Derivation(u) && Precedence(u) && Root(u) == Root(t) && Level(u) == Level(t) && Yield(u) == b
    && SameValue(Root(t), Value(t), Value(u))
  }

  /** The derivation of a query, for the same query with other texts. */
  lemma {:induction false} Rewrite(t: Tree, b: seq<Token>) returns (u: Tree)
    requires Derivation(t) && Precedence(t) && Alike(Yield(t), b)
    ensures Rewritten(t, b, u)
    decreases t, 1
  {
    match t
    case Leaf(token) =>
      u := Leaf(b[0]);
    case Branch(rule, kids) =>
      var us := RewriteAll(kids, b);
      u := Branch(rule, us);
      assert Roots(us) == Rhs(rule);
      OperatorTextsAreIgnored(rule, Values(kids), Values(us));
  }

  lemma {:induction false} RewriteAll(ts: seq<Tree>, b: seq<Token>) returns (us: seq<Tree>)
    requires Derivations(ts) && Precedences(ts) && Alike(Yields(ts), b)
    ensures Derivations(us) && Precedences(us) && Roots(us) == Roots(ts) && Yields(us) == b
    ensures SameValues(Roots(ts), Values(ts), Values(us))
    ensures |us| == |ts| && forall i :: 0 <= i < |ts| ==> Level(us[i]) == Level(ts[i])
    decreases ts, 0
  {
    if ts == [] {
      us := [];
    } else {
      var n := |Yield(ts[0])|;
      var u := Rewrite(ts[0], b[..n]);
      var rest := RewriteAll(ts[1..], b[n..]);
      us := [u] + rest;
      assert us[1..] == rest;
    }
  }

  /** What a query is accepted with does not depend on the texts of its operators. */
  lemma OperatorTextsMakeNoDifference(a: seq<Token>, b: seq<Token>, v: Minor, end: Token)
    requires Tokens(a) && NoEnd(a) && Tokens(b) && NoEnd(b) && end.major == 0 && Alike(a, b)
    ensures Outcome(None, a, end) == Accepted(v) <==> Outcome(None, b, end) == Accepted(v)
  {
    AcceptsIffDerivable(a, v, end);
    AcceptsIffDerivable(b, v, end);
    if t :| AcceptedBy(t, a, v) {
      var u := Rewrite(t, b);
      assert AcceptedBy(u, b, v);
    }
    if t :| AcceptedBy(t, b, v) {
      var u := Rewrite(t, a);
      assert AcceptedBy(u, a, v);
    }
  }
}
