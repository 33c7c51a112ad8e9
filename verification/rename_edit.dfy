/** `renameEditSql` of alter.c: the tokens of a list are overwritten in a buffer of exactly the
    size that the function allocates, the last token of the statement first. */
module RenameEdit {
  import opened SqlQuoting
  import opened RenameTokens

  // ---- The text that a set of edits stands for ----

  /** Overwrite the `n` bytes at some offset by `text`. */
  datatype Edit = Edit(n: nat, text: string)

  /** The edit that starts at byte `i` and does not run off the end. */
  predicate Starts(sql: string, edits: map<nat, Edit>, i: nat)
  {
    i in edits && 1 <= edits[i].n && i + edits[i].n <= |sql|
  }

  /** The statement from byte `i` on with all edits made at once, reading left to right. */
  function Substitute(sql: string, edits: map<nat, Edit>, i: nat): string
    decreases |sql| - i
  {
    if i >= |sql| then ""
    else if Starts(sql, edits, i) then edits[i].text + Substitute(sql, edits, i + edits[i].n)
    else [sql[i]] + Substitute(sql, edits, i + 1)
  }

  /** `part` stands in `text` at `o`. */
  predicate Shown(part: string, text: string, o: nat)
  {
    o + |part| <= |text| && forall k :: 0 <= k < |part| ==> part[k] == text[o + k]
  }

  /** The same as a relation: `text` from `o` on is the edited statement from `i` on. */
  ghost predicate Becomes(sql: string, edits: map<nat, Edit>, i: nat, text: string, o: nat)
    decreases |sql| - i
  {
    if i >= |sql| then i == |sql| && o == |text|
    else if Starts(sql, edits, i) then
      && Shown(edits[i].text, text, o)
      && Becomes(sql, edits, i + edits[i].n, text, o + |edits[i].text|)
    else
      o < |text| && text[o] == sql[i] && Becomes(sql, edits, i + 1, text, o + 1)
  }

  lemma {:induction false} BecomesIsSubstitute(sql: string, edits: map<nat, Edit>, i: nat, text: string, o: nat)
    requires Becomes(sql, edits, i, text, o)
    ensures o <= |text| && text[o..] == Substitute(sql, edits, i)
    decreases |sql| - i
  {
    if i < |sql| && Starts(sql, edits, i) {
      var e := edits[i];
      BecomesIsSubstitute(sql, edits, i + e.n, text, o + |e.text|);
      assert text[o..] == text[o..o + |e.text|] + text[o + |e.text|..];
      assert text[o..o + |e.text|] == e.text;
    } else if i < |sql| {
      BecomesIsSubstitute(sql, edits, i + 1, text, o + 1);
      assert text[o..] == [text[o]] + text[o + 1..];
    }
  }

  /** The edits overwrite disjoint, non-empty pieces of a statement of `nSql` bytes. */
  ghost predicate Disjoint(nSql: nat, edits: map<nat, Edit>)
  {
    && (forall o :: o in edits ==> 1 <= edits[o].n && o + edits[o].n <= nSql)
    && forall o, u :: o in edits && u in edits && o < u ==> o + edits[o].n <= u
  }

  /** Where no edit starts, the statement is copied. */
  lemma {:induction false} NothingToEdit(sql: string, edits: map<nat, Edit>, i: nat, b: nat, text: string, o: nat)
    requires i <= b <= |sql| && forall k :: i <= k < b ==> k !in edits
    requires o + (b - i) <= |text| && forall k :: i <= k < b ==> sql[k] == text[o + (k - i)]
    requires Becomes(sql, edits, b, text, o + (b - i))
    ensures Becomes(sql, edits, i, text, o)
    decreases b - i
  {
    if i < b {
      assert sql[i] == text[o + (i - i)];
      assert forall k :: i + 1 <= k < b ==> sql[k] == text[o + 1 + (k - (i + 1))];
      NothingToEdit(sql, edits, i + 1, b, text, o + 1);
    }
  }

  /** Only the text from `o` on matters, not where in the buffer it stands. */
  lemma {:induction false} Moved(sql: string, edits: map<nat, Edit>, i: nat, text: string, o: nat, now: string, p: nat)
    requires Becomes(sql, edits, i, text, o) && o <= |text|
    requires |now| - p == |text| - o
    requires forall k :: p <= k < |now| ==> now[k] == text[k - p + o]
    ensures Becomes(sql, edits, i, now, p)
    decreases |sql| - i
  {
    if i < |sql| && Starts(sql, edits, i) {
      var e := edits[i];
      assert forall k :: 0 <= k < |e.text| ==> e.text[k] == now[p + k];
      Moved(sql, edits, i + e.n, text, o + |e.text|, now, p + |e.text|);
    } else if i < |sql| {
      Moved(sql, edits, i + 1, text, o + 1, now, p + 1);
    }
  }

  // ---- What each token is replaced by ----

  /** Rename is the mode with a new name; QuoteFix is the mode with zNew == 0. */
  datatype Mode = Rename(zNew: string, bQuote: bool) | QuoteFix

  function ByteAt(s: string, i: nat): char { if i < |s| then s[i] else NUL }

  function Replacement(mode: Mode, sql: string, off: nat, n: nat): string
    requires off + n <= |sql|
  {
    var next := ByteAt(sql, off + n);
    match mode
    case Rename(zNew, bQuote) =>
      if !bQuote && IsIdChar(ByteAt(sql, off)) then zNew
      else Quoted(zNew, '"') + (if next == '"' then " " else "")
    case QuoteFix =>
      Quoted(Dequoted(sql[off..off + n]), '\'') + (if next == '\'' then " " else "")
  }

  /** What `renameEditSql` may assume of a token: it is a non-empty piece of the statement, and
      in the second mode it is one double-quoted string. */
  ghost predicate IsToken(mode: Mode, sql: string, off: nat, n: nat)
  {
    && 1 <= n && off + n <= |sql|
    && (mode.QuoteFix? ==> OneToken(sql[off..off + n], '"'))
  }

  function NQuot(mode: Mode): nat { if mode.Rename? then |Quoted(mode.zNew, '"')| else 0 }

  /** The most bytes that the replacement of a token of `n` bytes adds. */
  function Growth(mode: Mode, n: nat): int { if mode.Rename? then NQuot(mode) else n - 1 }

  /** A double-quoted token of `n` bytes takes at most `2 * n - 2` bytes in single quotes. */
  lemma RequotedFits(token: string)
    requires OneToken(token, '"')
    ensures |Quoted(Dequoted(token), '\'')| <= 2 * |token| - 2
    ensures NoNul(token) ==> NoNul(Quoted(Dequoted(token), '\''))
  {
    var name := Undouble(token, 1, '"');
    DoubledLength(name, '\'');
    if NoNul(token) { UndoubleKeepsNoNul(token, 1, '"'); }
  }

  lemma ReplacementFits(mode: Mode, sql: string, off: nat, n: nat)
    requires IsToken(mode, sql, off, n)
    ensures |Replacement(mode, sql, off, n)| - n <= Growth(mode, n)
    ensures NoNul(sql) && (mode.Rename? ==> NoNul(mode.zNew)) ==> NoNul(Replacement(mode, sql, off, n))
  {
    match mode
    case Rename(zNew, bQuote) =>
      DoubledLength(zNew, '"');
    case QuoteFix =>
      RequotedFits(sql[off..off + n]);
  }

  function QuoteOf(mode: Mode): char { if mode.Rename? then '"' else '\'' }

  /** What a replaced token has to mean: the new name, or the string it stood for. */
  function Meaning(mode: Mode, token: string): string
  {
    if mode.Rename? then mode.zNew else Dequoted(token)
  }

  ghost predicate IsQuoted(mode: Mode, sql: string, off: nat)
  {
    mode.QuoteFix? || mode.bQuote || !IsIdChar(ByteAt(sql, off))
  }

  /** The new token, with whatever text after it, reads as it should exactly when that text
      does not start with the same quote, or the byte after the old token was that quote. */
  lemma ReplacementReads(mode: Mode, sql: string, off: nat, n: nat, rest: string)
    requires IsToken(mode, sql, off, n) && IsQuoted(mode, sql, off)
    ensures Dequoted(Replacement(mode, sql, off, n) + rest) == Meaning(mode, sql[off..off + n])
      <==> rest == "" || rest[0] != QuoteOf(mode) || ByteAt(sql, off + n) == QuoteOf(mode)
  {
    var q := QuoteOf(mode);
    var name := Meaning(mode, sql[off..off + n]);
    var space := if ByteAt(sql, off + n) == q then " " else "";
    DequoteQuoted(name, q, space + rest);
    Assoc(Quoted(name, q), space, rest);
  }

  // ---- The tokens of a list as edits ----

  ghost predicate Tokens(mode: Mode, sql: string, nodes: seq<RenameToken>)
  {
    && (forall t {:trigger IsToken(mode, sql, t.off, t.n)} :: t in nodes ==> IsToken(mode, sql, t.off, t.n))
    && (forall t :: t in nodes ==> 1 <= t.n && t.off + t.n <= |sql|)
    && forall t, u :: t in nodes && u in nodes && t != u ==> t.off + t.n <= u.off || u.off + u.n <= t.off
  }

  /** Where the tokens of a list start, and how long they are. */
  function Spans(nodes: seq<RenameToken>): map<nat, nat>
  {
    if nodes == [] then map[] else Spans(nodes[1..])[nodes[0].off := nodes[0].n]
  }

  lemma {:induction false} SpansAre(nodes: seq<RenameToken>)
    requires forall t, u :: t in nodes && u in nodes && t != u ==> t.off != u.off
    ensures forall t :: t in nodes ==> t.off in Spans(nodes) && Spans(nodes)[t.off] == t.n
    ensures forall o :: o in Spans(nodes) ==> exists t :: t in nodes && t.off == o
  {
    if nodes != [] {
      SpansAre(nodes[1..]);
      assert forall t :: t in nodes ==> t == nodes[0] || t in nodes[1..];
    }
  }

  /** The edits that a list of tokens asks for. */
  ghost function EditsOf(mode: Mode, sql: string, nodes: seq<RenameToken>): map<nat, Edit>
  {
    var spans := Spans(nodes);
    map o | o in spans && o + spans[o] <= |sql| :: o := Edit(spans[o], Replacement(mode, sql, o, spans[o]))
  }

  lemma EditsAre(mode: Mode, sql: string, nodes: seq<RenameToken>)
    requires Tokens(mode, sql, nodes)
    ensures var e := EditsOf(mode, sql, nodes);
      && (forall t :: t in nodes ==> t.off in e && e[t.off] == Edit(t.n, Replacement(mode, sql, t.off, t.n)))
      && (forall o :: o in e ==> exists t :: t in nodes && t.off == o)
    ensures Disjoint(|sql|, EditsOf(mode, sql, nodes))
  {
    SpansAre(nodes);
  }

  /** Two lists of the same tokens stand for the same edits, so whatever order the parser
      found the tokens in, the new statement is the same. */
  lemma OrderDoesNotMatter(mode: Mode, sql: string, a: seq<RenameToken>, b: seq<RenameToken>)
    requires Tokens(mode, sql, a) && Tokens(mode, sql, b)
    requires forall t :: t in a <==> t in b
    ensures EditsOf(mode, sql, a) == EditsOf(mode, sql, b)
  {
    EditsAre(mode, sql, a);
    EditsAre(mode, sql, b);
  }

  /** A token of the list starts at byte `i`, with something else than the quote, and what it is
      replaced by starts with the quote. */
  predicate QuoteAppears(mode: Mode, sql: string, edits: map<nat, Edit>, i: nat)
  {
    && i in edits && edits[i].text != "" && edits[i].text[0] == QuoteOf(mode)
    && ByteAt(sql, i) != QuoteOf(mode)
  }

  /** In the new statement a quoted replacement reads as it should, exactly unless a quote
      appears where the byte behind the old token was. */
  lemma ReplacedTokenReads(mode: Mode, sql: string, edits: map<nat, Edit>, off: nat, n: nat)
    requires IsToken(mode, sql, off, n) && IsQuoted(mode, sql, off)
    requires off in edits && edits[off] == Edit(n, Replacement(mode, sql, off, n))
    requires off + n in edits ==> Starts(sql, edits, off + n) && edits[off + n].text != ""
    ensures Dequoted(Substitute(sql, edits, off)) == Meaning(mode, sql[off..off + n])
      <==> !QuoteAppears(mode, sql, edits, off + n)
  {
    var later := Substitute(sql, edits, off + n);
    assert Substitute(sql, edits, off) == Replacement(mode, sql, off, n) + later;
    assert off + n !in edits ==> later == "" || later[0] == ByteAt(sql, off + n);
    ReplacementReads(mode, sql, off, n, later);
  }

  /** A token of the list starts at byte `i`, not with the quote, and is replaced by something that
      does: by a quoted text, or by a new name that has the quote as its first character. */
  ghost predicate QuoteComes(mode: Mode, sql: string, nodes: seq<RenameToken>, i: nat)
  {
    && (exists t :: t in nodes && t.off == i)
    && ByteAt(sql, i) != QuoteOf(mode)
    && (IsQuoted(mode, sql, i) || (mode.zNew != "" && mode.zNew[0] == QuoteOf(mode)))
  }

  /** A name that starts with a letter, a digit, `_`, `$` or a byte outside of ASCII is replaced by
      a plain name, unless the new name has to be quoted; every other one by a quoted name. */
  lemma PlainStaysPlain(mode: Mode, sql: string, off: nat)
    requires mode.Rename? && off < |sql|
    ensures var c := sql[off] as int;
      var plain := 48 <= c < 58 || 65 <= c < 91 || 97 <= c < 123 || c == 95 || c == 36 || 128 <= c;
      IsQuoted(mode, sql, off) <==> mode.bQuote || !plain
  {
  }

  lemma ReplacementStarts(mode: Mode, sql: string, off: nat, n: nat)
    requires IsToken(mode, sql, off, n) && (mode.Rename? ==> mode.zNew != "")
    ensures var r := Replacement(mode, sql, off, n);
      && r != ""
      && (IsQuoted(mode, sql, off) ==> r[0] == QuoteOf(mode))
      && (!IsQuoted(mode, sql, off) ==> r == mode.zNew)
  {
  }

  lemma ReplacementIs(mode: Mode, sql: string, off: nat, n: nat, rest: string)
    requires IsToken(mode, sql, off, n) && IsQuoted(mode, sql, off)
    ensures var q := Quoted(Meaning(mode, sql[off..off + n]), QuoteOf(mode));
      Replacement(mode, sql, off, n) + rest == q + rest || Replacement(mode, sql, off, n) + rest == q + " " + rest
  {
    var q := Quoted(Meaning(mode, sql[off..off + n]), QuoteOf(mode));
    assert q + "" == q;
  }

  /** `edits` are those that the list asks for. */
  ghost predicate AreEdits(mode: Mode, sql: string, nodes: seq<RenameToken>, edits: map<nat, Edit>)
  {
    && (forall t :: t in nodes ==>
          t.off + t.n <= |sql| && t.off in edits && edits[t.off] == Edit(t.n, Replacement(mode, sql, t.off, t.n)))
    && forall o :: o in edits ==> exists t :: t in nodes && t.off == o
  }

  lemma SubstituteAt(sql: string, edits: map<nat, Edit>, i: nat, n: nat, r: string)
    requires i in edits && edits[i] == Edit(n, r) && 1 <= n && i + n <= |sql|
    ensures Substitute(sql, edits, i) == r + Substitute(sql, edits, i + n)
  {
  }

  lemma QuoteComesIff(mode: Mode, sql: string, nodes: seq<RenameToken>, edits: map<nat, Edit>, i: nat)
    requires Tokens(mode, sql, nodes) && AreEdits(mode, sql, nodes, edits) && (mode.Rename? ==> mode.zNew != "")
    ensures QuoteComes(mode, sql, nodes, i) <==> QuoteAppears(mode, sql, edits, i)
    ensures i in edits ==> Starts(sql, edits, i) && edits[i].text != ""
  {
    if t :| t in nodes && t.off == i {
      assert IsToken(mode, sql, t.off, t.n);
      ReplacementStarts(mode, sql, t.off, t.n);
    }
  }

  /** In the new statement the place of an unquoted name has the new name as it is, and then the
      rest of the statement, edited, follows. */
  lemma {:induction false} PlainTokenReads(mode: Mode, sql: string, nodes: seq<RenameToken>, edits: map<nat, Edit>,
                                           t: RenameToken)
    requires Tokens(mode, sql, nodes) && AreEdits(mode, sql, nodes, edits)
    requires t in nodes && !IsQuoted(mode, sql, t.off)
    ensures Substitute(sql, edits, t.off) == mode.zNew + Substitute(sql, edits, t.off + t.n)
  {
    SubstituteAt(sql, edits, t.off, t.n, mode.zNew);
  }

  /** The edits of a list are those of `EditsOf`, so the two lemmas are about the new statement. */
  lemma EditsOfAre(mode: Mode, sql: string, nodes: seq<RenameToken>)
    requires Tokens(mode, sql, nodes)
    ensures AreEdits(mode, sql, nodes, EditsOf(mode, sql, nodes))
  {
    EditsAre(mode, sql, nodes);
  }

  /** `text` is a quoted name, perhaps a space, and `rest`, and reads as the name unless a quote
      comes. */
  predicate ReadsQuoted(text: string, means: string, q: char, rest: string, comes: bool)
  {
    && (text == Quoted(means, q) + rest || text == Quoted(means, q) + " " + rest)
    && (Dequoted(text) == means <==> !comes)
  }

  /** One token, whose edit is known. */
  lemma QuotedEditReads(mode: Mode, sql: string, edits: map<nat, Edit>, off: nat, n: nat, comes: bool)
    requires IsToken(mode, sql, off, n) && IsQuoted(mode, sql, off)
    requires comes <==> QuoteAppears(mode, sql, edits, off + n)
    requires off in edits && edits[off] == Edit(n, Replacement(mode, sql, off, n))
    requires off + n in edits ==> Starts(sql, edits, off + n) && edits[off + n].text != ""
    ensures ReadsQuoted(Substitute(sql, edits, off), Meaning(mode, sql[off..off + n]), QuoteOf(mode),
              Substitute(sql, edits, off + n), comes)
  {
    ReplacedTokenReads(mode, sql, edits, off, n);
    SubstituteAt(sql, edits, off, n, Replacement(mode, sql, off, n));
    ReplacementIs(mode, sql, off, n, Substitute(sql, edits, off + n));
  }

  /** The place of any other token has the quoted meaning of the token, perhaps a space, and the
      edited rest.  It reads as it should, exactly unless a quote comes. */
  lemma {:induction false} QuotedTokenReads(mode: Mode, sql: string, nodes: seq<RenameToken>, edits: map<nat, Edit>,
                                            t: RenameToken)
    requires Tokens(mode, sql, nodes) && AreEdits(mode, sql, nodes, edits)
    requires t in nodes && IsQuoted(mode, sql, t.off) && (mode.Rename? ==> mode.zNew != "")
    ensures ReadsQuoted(Substitute(sql, edits, t.off), Meaning(mode, sql[t.off..t.off + t.n]), QuoteOf(mode),
              Substitute(sql, edits, t.off + t.n), QuoteComes(mode, sql, nodes, t.off + t.n))
  {
    QuoteComesIff(mode, sql, nodes, edits, t.off + t.n);
    QuotedEditReads(mode, sql, edits, t.off, t.n, QuoteComes(mode, sql, nodes, t.off + t.n));
  }

  /** How `text` reads at a token, with `rest` behind it. */
  ghost predicate Reads(mode: Mode, sql: string, nodes: seq<RenameToken>, t: RenameToken, text: string, rest: string)
    requires t.off + t.n <= |sql|
  {
    var means := Meaning(mode, sql[t.off..t.off + t.n]);
    if IsQuoted(mode, sql, t.off) then
      ReadsQuoted(text, means, QuoteOf(mode), rest, QuoteComes(mode, sql, nodes, t.off + t.n))
    else
      means == mode.zNew && text == means + rest
  }

  /** What the new statement has in the place of each token, in both modes, quoted or not. */
  lemma {:induction false} TokenReads(mode: Mode, sql: string, nodes: seq<RenameToken>, t: RenameToken)
    requires Tokens(mode, sql, nodes) && t in nodes && (mode.Rename? ==> mode.zNew != "")
    ensures var edits := EditsOf(mode, sql, nodes);
      Reads(mode, sql, nodes, t, Substitute(sql, edits, t.off), Substitute(sql, edits, t.off + t.n))
  {
    EditsOfAre(mode, sql, nodes);
    if IsQuoted(mode, sql, t.off) {
      QuotedTokenReads(mode, sql, nodes, EditsOf(mode, sql, nodes), t);
    } else {
      PlainTokenReads(mode, sql, nodes, EditsOf(mode, sql, nodes), t);
    }
  }

  /** Outside the tokens the new statement has the bytes of the old one. */
  lemma OtherBytesStay(mode: Mode, sql: string, nodes: seq<RenameToken>, i: nat)
    requires Tokens(mode, sql, nodes) && i < |sql| && forall t :: t in nodes ==> t.off != i
    ensures var edits := EditsOf(mode, sql, nodes);
      Substitute(sql, edits, i) == [sql[i]] + Substitute(sql, edits, i + 1)
  {
    EditsAre(mode, sql, nodes);
  }

  /** Two names in brackets without a space between them, both renamed to `x`: the new text reads
      as the one name `x"x`. */
  lemma BracketsMerge()
    ensures var mode, sql := Rename("x", true), "[a][b]";
      var edits := map[0 := Edit(3, Replacement(mode, sql, 0, 3)), 3 := Edit(3, Replacement(mode, sql, 3, 3))];
      && IsToken(mode, sql, 0, 3) && IsToken(mode, sql, 3, 3) && QuoteAppears(mode, sql, edits, 3)
      && Dequoted(Substitute(sql, edits, 0)) == "x\"x"
  {
    var mode, sql := Rename("x", true), "[a][b]";
    assert Doubled("x", '"') == "x" by { assert Doubled("", '"') == ""; }
    var name := Quoted("x", '"');
    assert Replacement(mode, sql, 0, 3) == name == Replacement(mode, sql, 3, 3);
    var edits := map[0 := Edit(3, name), 3 := Edit(3, name)];
    assert Substitute(sql, edits, 6) == "";
    assert Substitute(sql, edits, 3) == name;
    var text := name + name;
    assert Substitute(sql, edits, 0) == text;
    assert Undouble(text, 5, '"') == "";
    assert Undouble(text, 4, '"') == "x";
    assert Undouble(text, 2, '"') == "\"x";
    assert Undouble(text, 1, '"') == "x\"x";
  }

  // ---- Undoing the edits ----

  /** The edits that put the old text back: where each replacement starts in the new text. */
  function Inverse(sql: string, edits: map<nat, Edit>, i: nat, o: nat): map<nat, Edit>
    decreases |sql| - i
  {
    if i >= |sql| then map[]
    else if Starts(sql, edits, i) then
      var e := edits[i];
      Inverse(sql, edits, i + e.n, o + |e.text|)[o := Edit(|e.text|, sql[i..i + e.n])]
    else Inverse(sql, edits, i + 1, o + 1)
  }

  /** `back` makes the edits of `Inverse` from `o` on, and no others there. */
  ghost predicate PutsBack(back: map<nat, Edit>, inverse: map<nat, Edit>, o: nat)
  {
    forall k :: o <= k ==> (k in back <==> k in inverse) && (k in back ==> back[k] == inverse[k])
  }

  lemma {:induction false} InverseIsAhead(sql: string, edits: map<nat, Edit>, i: nat, o: nat)
    ensures forall k :: k in Inverse(sql, edits, i, o) ==> o <= k
    decreases |sql| - i
  {
    if i < |sql| && Starts(sql, edits, i) {
      InverseIsAhead(sql, edits, i + edits[i].n, o + |edits[i].text|);
    } else if i < |sql| {
      InverseIsAhead(sql, edits, i + 1, o + 1);
    }
  }

  /** Overwriting every replacement by the token it came from restores the statement. */
  lemma {:induction false} EditsCanBeUndone(sql: string, edits: map<nat, Edit>, i: nat, text: string, o: nat,
                                            back: map<nat, Edit>)
    requires forall k :: k in edits ==> edits[k].text != ""
    requires Becomes(sql, edits, i, text, o) && o <= |text|
    requires PutsBack(back, Inverse(sql, edits, i, o), o)
    ensures Becomes(text, back, o, sql, i)
    decreases |sql| - i
  {
    if i < |sql| && Starts(sql, edits, i) {
      var e := edits[i];
      InverseIsAhead(sql, edits, i + e.n, o + |e.text|);
      EditsCanBeUndone(sql, edits, i + e.n, text, o + |e.text|, back);
      assert Starts(text, back, o) && back[o] == Edit(|e.text|, sql[i..i + e.n]);
      assert Shown(sql[i..i + e.n], sql, i);
    } else if i < |sql| {
      InverseIsAhead(sql, edits, i + 1, o + 1);
      EditsCanBeUndone(sql, edits, i + 1, text, o + 1, back);
    }
  }

  lemma {:induction false} SubstituteIsBecome(sql: string, edits: map<nat, Edit>, i: nat, text: string, o: nat)
    requires i <= |sql| && o <= |text| && text[o..] == Substitute(sql, edits, i)
    ensures Becomes(sql, edits, i, text, o)
    decreases |sql| - i
  {
    var rest := text[o..];
    if i < |sql| && Starts(sql, edits, i) {
      var e := edits[i];
      assert rest[|e.text|..] == Substitute(sql, edits, i + e.n);
      assert text[o + |e.text|..] == rest[|e.text|..];
      assert forall k :: 0 <= k < |e.text| ==> e.text[k] == rest[k] && rest[k] == text[o + k];
      SubstituteIsBecome(sql, edits, i + e.n, text, o + |e.text|);
    } else if i < |sql| {
      assert rest[1..] == Substitute(sql, edits, i + 1);
      assert text[o + 1..] == rest[1..];
      assert rest[0] == text[o];
      SubstituteIsBecome(sql, edits, i + 1, text, o + 1);
    }
  }

  /** Whatever the list of tokens, the new statement can be turned back into the old one, so
      everything outside the tokens is still there, in its place between them. */
  lemma {:induction false} RenameCanBeUndone(mode: Mode, sql: string, nodes: seq<RenameToken>)
    requires mode.Rename? ==> mode.zNew != ""
    ensures var edits := EditsOf(mode, sql, nodes);
      Substitute(Substitute(sql, edits, 0), Inverse(sql, edits, 0, 0), 0) == sql
  {
    var edits := EditsOf(mode, sql, nodes);
    var text := Substitute(sql, edits, 0);
    SubstituteIsBecome(sql, edits, 0, text, 0);
    EditsCanBeUndone(sql, edits, 0, text, 0, Inverse(sql, edits, 0, 0));
    BecomesIsSubstitute(text, Inverse(sql, edits, 0, 0), 0, sql, 0);
  }
}
