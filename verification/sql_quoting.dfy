/** The quoting conventions that alter.c relies on: `sqlite3Dequote` of util.c, run in place
    on a buffer, and the `%w` and `%Q` conversions of the built-in printf. */
module SqlQuoting {

  const NUL := '\0'

  predicate IsQuote(c: char) { c == '"' || c == '\'' || c == '[' || c == '`' }

  /** A letter, a digit, `_`, `$`, or any byte above 0x7f. */
  predicate IsIdChar(c: char) {
    || 'a' <= c <= 'z' || 'A' <= c <= 'Z' || '0' <= c <= '9'
    || c == '_' || c == '$' || 0x80 as char <= c
  }

  function Closer(q: char): char { if q == '[' then ']' else q }

  /** The text from index `i` up to the first `q` that is not doubled, with every doubled `q`
      halved. */
  function Undouble(z: string, i: nat, q: char): string
    requires i <= |z|
    decreases |z| - i
  {
    if i == |z| then ""
    else if z[i] != q then [z[i]] + Undouble(z, i + 1, q)
    else if i + 1 < |z| && z[i + 1] == q then [q] + Undouble(z, i + 2, q)
    else ""
  }

  /** Where that first single `q` stands, or the length when there is none. */
  function CloseAt(z: string, i: nat, q: char): (k: nat)
    requires i <= |z|
    ensures i <= k <= |z|
    ensures k < |z| ==> z[k] == q && (k + 1 < |z| ==> z[k + 1] != q)
    ensures |Undouble(z, i, q)| <= k - i
    decreases |z| - i
  {
    if i == |z| then i
    else if z[i] != q then CloseAt(z, i + 1, q)
    else if i + 1 < |z| && z[i + 1] == q then CloseAt(z, i + 2, q)
    else i
  }

  function Dequoted(z: string): string
  {
    if z == "" || !IsQuote(z[0]) then z else Undouble(z, 1, Closer(z[0]))
  }

  /** The text is one quoted token: it opens with `q` and its only closing quote is its last
      byte. */
  predicate OneToken(z: string, q: char)
  {
    |z| >= 2 && z[0] == q && CloseAt(z, 1, Closer(q)) == |z| - 1
  }

  function Doubled(s: string, q: char): string
  {
    if s == "" then "" else (if s[0] == q then [q, q] else [s[0]]) + Doubled(s[1..], q)
  }

  function Quoted(s: string, q: char): string { [q] + Doubled(s, q) + [q] }

  predicate NoNul(s: string) { forall i :: 0 <= i < |s| ==> s[i] != NUL }

  lemma Assoc(a: string, b: string, c: string)
    ensures (a + b) + c == a + (b + c)
  {
  }

  /** `z` shows `s` with its quotes doubled from index `i` up to `end`, and one more quote
      there. */
  ghost predicate Shows(z: string, i: nat, s: string, q: char, end: nat)
    decreases |s|
  {
    if s == "" then i == end < |z| && z[end] == q
    else if s[0] == q then i + 1 < |z| && z[i] == z[i + 1] == q && Shows(z, i + 2, s[1..], q, end)
    else i < |z| && z[i] == s[0] && Shows(z, i + 1, s[1..], q, end)
  }

  lemma {:induction false} DoubledShows(z: string, i: nat, s: string, q: char)
    requires i + |Doubled(s, q)| < |z| && z[i + |Doubled(s, q)|] == q
    requires forall k :: 0 <= k < |Doubled(s, q)| ==> Doubled(s, q)[k] == z[i + k]
    ensures Shows(z, i, s, q, i + |Doubled(s, q)|)
    decreases |s|
  {
    if s != "" {
      var d := Doubled(s, q);
      var first := if s[0] == q then 2 else 1;
      assert d[0] == z[i + 0] && (first == 2 ==> d[1] == z[i + 1]);
      assert forall k :: 0 <= k < |d| - first ==> Doubled(s[1..], q)[k] == d[k + first];
      DoubledShows(z, i + first, s[1..], q);
    }
  }

  /** The text `s` is read back from there exactly when no further quote follows. */
  lemma {:induction false} UndoubleShown(z: string, i: nat, s: string, q: char, end: nat)
    requires Shows(z, i, s, q, end)
    ensures i <= end < |z|
    ensures if end + 1 == |z| || z[end + 1] != q
      then Undouble(z, i, q) == s && CloseAt(z, i, q) == end
      else |Undouble(z, i, q)| > |s|
    decreases |s|
  {
    if s != "" {
      UndoubleShown(z, if s[0] == q then i + 2 else i + 1, s[1..], q, end);
      assert s == [s[0]] + s[1..];
    }
  }

  lemma {:induction false} QuotedShows(s: string, q: char, rest: string)
    ensures Shows(Quoted(s, q) + rest, 1, s, q, 1 + |Doubled(s, q)|)
  {
    DoubledShows(Quoted(s, q) + rest, 1, s, q);
  }

  /** Reading back a quoted text gives the text exactly when what follows it does not start
      with one more quote. */
  lemma DequoteQuoted(s: string, q: char, rest: string)
    requires q == '"' || q == '\'' || q == '`'
    ensures Dequoted(Quoted(s, q) + rest) == s <==> rest == "" || rest[0] != q
  {
    var z := Quoted(s, q) + rest;
    QuotedShows(s, q, rest);
    UndoubleShown(z, 1, s, q, 1 + |Doubled(s, q)|);
  }

  /** What is read up to a quote at the end, with its quotes doubled again, is what was there. */
  lemma {:induction false} DoublesBack(z: string, i: nat, q: char)
    requires i < |z| && CloseAt(z, i, q) == |z| - 1
    ensures Doubled(Undouble(z, i, q), q) + [q] == z[i..]
    decreases |z| - i
  {
    var u := Undouble(z, i, q);
    if z[i] != q {
      DoublesBack(z, i + 1, q);
      assert u[1..] == Undouble(z, i + 1, q);
    } else if i + 1 < |z| && z[i + 1] == q {
      DoublesBack(z, i + 2, q);
      assert u[1..] == Undouble(z, i + 2, q);
    }
  }

  /** One quoted token is any text with its quotes doubled between two quotes. */
  lemma OneTokenIff(z: string, q: char)
    requires q == '"' || q == '\'' || q == '`'
    ensures OneToken(z, q) <==> z == Quoted(Dequoted(z), q)
  {
    if OneToken(z, q) {
      DoublesBack(z, 1, q);
      assert z == [q] + z[1..];
    }
    if z == Quoted(Dequoted(z), q) { QuotedIsOneToken(Dequoted(z), q); }
  }

  lemma {:induction false} QuotedIsOneToken(s: string, q: char)
    requires q == '"' || q == '\'' || q == '`'
    ensures OneToken(Quoted(s, q), q)
  {
    assert Quoted(s, q) + "" == Quoted(s, q);
    QuotedShows(s, q, "");
    UndoubleShown(Quoted(s, q), 1, s, q, 1 + |Doubled(s, q)|);
  }

  /** A text in brackets reads as what is between them; one that opens with none of the four
      quotes reads as it is. */
  lemma DequoteOthers(s: string, rest: string)
    ensures (forall k :: 0 <= k < |s| ==> s[k] != ']') && (rest == "" || rest[0] != ']') ==>
      Dequoted("[" + s + "]" + rest) == s
    ensures s == "" || s[0] !in {'"', '\'', '[', '`'} ==> Dequoted(s) == s
  {
    if (forall k :: 0 <= k < |s| ==> s[k] != ']') && (rest == "" || rest[0] != ']') {
      var z := "[" + s + "]" + rest;
      assert forall k :: 0 <= k < |s| ==> z[k + 1] == s[k];
      ReadsUpTo(z, 1, s, ']');
    }
  }

  lemma {:induction false} ReadsUpTo(z: string, i: nat, s: string, q: char)
    requires i + |s| < |z| && z[i + |s|] == q && (i + |s| + 1 == |z| || z[i + |s| + 1] != q)
    requires forall k :: 0 <= k < |s| ==> z[i + k] == s[k] && s[k] != q
    ensures Undouble(z, i, q) == s
    decreases |s|
  {
    if s != "" {
      assert forall k :: 0 <= k < |s[1..]| ==> z[i + 1 + k] == s[1..][k];
      ReadsUpTo(z, i + 1, s[1..], q);
      assert z[i + 0] == s[0] && s == [s[0]] + s[1..];
    }
  }

  lemma {:induction false} DoubledLength(s: string, q: char)
    ensures |s| <= |Doubled(s, q)| <= 2 * |s|
    ensures NoNul(s) && q != NUL ==> NoNul(Doubled(s, q))
  {
    if s != "" { DoubledLength(s[1..], q); }
  }

  lemma {:induction false} UndoubleKeepsNoNul(z: string, i: nat, q: char)
    requires NoNul(z) && i <= |z|
    ensures NoNul(Undouble(z, i, q))
    decreases |z| - i
  {
    if i == |z| {
    } else if z[i] != q {
      UndoubleKeepsNoNul(z, i + 1, q);
    } else if i + 1 < |z| && z[i + 1] == q {
      UndoubleKeepsNoNul(z, i + 2, q);
    }
  }

  /** The zero-terminated text `s` starts at `base`. */
  ghost predicate Holds(z: array<char>, base: nat, s: string)
    reads z
  {
    && base + |s| < z.Length && z[base + |s|] == NUL
    && forall k :: 0 <= k < |s| ==> s[k] == z[base + k]
  }

  /** Standing at `i` with `j` bytes of `t` written, the scan of `sqlite3Dequote` goes on to
      write the rest of `t` and stops at a closing quote. */
  ghost predicate Scan(s: string, i: nat, t: string, j: nat, q: char)
    decreases |s| - i
  {
    && j < i < |s|
    && if s[i] != q then
         j < |t| && t[j] == s[i] && Scan(s, i + 1, t, j + 1, q)
       else if i + 1 < |s| && s[i + 1] == q then
         j < |t| && t[j] == q && Scan(s, i + 2, t, j + 1, q)
       else
         j == |t|
  }

  lemma {:induction false} ScanWrites(s: string, i: nat, t: string, j: nat, q: char)
    requires j < i <= |s| && j <= |t| && t[j..] == Undouble(s, i, q) && CloseAt(s, i, q) < |s|
    ensures Scan(s, i, t, j, q)
    decreases |s| - i
  {
    var u := t[j..];
    assert u != "" ==> t[j] == u[0] && t[j + 1..] == u[1..];
    if s[i] != q {
      ScanWrites(s, i + 1, t, j + 1, q);
    } else if i + 1 < |s| && s[i + 1] == q {
      ScanWrites(s, i + 2, t, j + 1, q);
    }
  }

  /** `sqlite3Dequote` on the zero-terminated text at `base`.  The source asserts that a text
      opening with a quote has a closing one. */
  method Dequote(z: array<char>, base: nat, ghost s: string)
    requires NoNul(s) && Holds(z, base, s)
    requires s != "" && IsQuote(s[0]) ==> CloseAt(s, 1, Closer(s[0])) < |s|
    modifies z
    ensures Holds(z, base, Dequoted(s))
    ensures |Dequoted(s)| <= |s|
    ensures forall k :: 0 <= k < base || base + |s| < k < z.Length ==> z[k] == old(z[k])
  {
    if !IsQuote(z[base]) {
      assert s == "" || s[0] == z[base];
      return;
    }
    assert s != "" && s[0] == z[base];
    var quote := Closer(z[base]);
    ghost var t := Dequoted(s);
    ScanWrites(s, 1, t, 0, quote);
    Unquote(z, base, quote, s, t);
  }

  /** The loop of `sqlite3Dequote`. */
  method Unquote(z: array<char>, base: nat, quote: char, ghost s: string, ghost t: string)
    requires quote != NUL && Holds(z, base, s) && Scan(s, 1, t, 0, quote)
    modifies z
    ensures Holds(z, base, t) && |t| < |s|
    ensures forall k :: 0 <= k < base || base + |s| < k < z.Length ==> z[k] == old(z[k])
  {
    var i, j := 1, 0;
    while true
      invariant Scan(s, i, t, j, quote)
      invariant forall k :: 0 <= k < j ==> t[k] == z[base + k]
      invariant forall k :: i <= k < |s| ==> s[k] == z[base + k]
      invariant forall k :: 0 <= k < base || base + |s| <= k < z.Length ==> z[k] == old(z[k])
      decreases |s| - i
    {
      assert s[i] == z[base + i];
      if z[base + i] == quote {
        assert i + 1 < |s| ==> s[i + 1] == z[base + i + 1];
        if z[base + i + 1] == quote {
          z[base + j] := quote;
          j, i := j + 1, i + 2;
        } else {
          break;
        }
      } else {
        z[base + j] := z[base + i];
        j, i := j + 1, i + 1;
      }
    }
    z[base + j] := NUL;
  }

  /** `strlen` of the zero-terminated text at `base`. */
  method Strlen(z: array<char>, base: nat, ghost s: string) returns (n: nat)
    requires NoNul(s) && Holds(z, base, s)
    ensures n == |s|
  {
    n := 0;
    while z[base + n] != NUL
      invariant n <= |s| && (n < |s| ==> s[n] == z[base + n])
      decreases |s| - n
    {
      n := n + 1;
    }
  }
}
