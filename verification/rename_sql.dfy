/** `renameEditSql` itself, proved equal to substituting every token at once. */
module RenameSql {
  import opened SqlQuoting
  import opened RenameTokens
  import opened RenameEdit
  import opened RenameBuffer

  /** The bytes that the function sets aside for the statement, without the terminator. */
  function Room(mode: Mode, nSql: nat, nList: nat): nat
  {
    if mode.Rename? then nSql + nList * NQuot(mode) else 2 * nSql
  }

  /** How much the text may still grow with `left` tokens to do, all before byte `b`. */
  function Budget(mode: Mode, left: nat, b: nat): nat
  {
    if mode.Rename? then left * NQuot(mode) else b
  }

  lemma BudgetForOne(mode: Mode, left: nat, off: nat, n: nat, b: nat)
    requires 1 <= left && 1 <= n && off + n <= b
    ensures Growth(mode, n) + Budget(mode, left - 1, off) <= Budget(mode, left, b)
  {
    assert left * NQuot(mode) == (left - 1) * NQuot(mode) + NQuot(mode);
  }

  /** `text` is the statement with the edits from byte `b` on made: nothing before `b` has
      changed yet.  It may still grow by `budget`. */
  ghost predicate Progress(sql: string, edits: map<nat, Edit>, room: nat, budget: nat, b: nat, text: string)
  {
    && b <= |sql| && b <= |text|
    && (forall k :: 0 <= k < b ==> text[k] == sql[k])
    && Becomes(sql, edits, b, text, b)
    && |text| + budget <= room
    && NoNul(text)
  }

  /** What is left to do of a list `was`: its tokens before byte `b`. */
  ghost predicate Remaining(was: seq<RenameToken>, cur: seq<RenameToken>, b: nat)
  {
    && (forall t :: t in cur ==> t in was && t.off + t.n <= b)
    && (forall t :: t in was ==> t in cur || b <= t.off)
  }

  /** Replacing a token in a text that is done from `b` on gives one that is done from the
      token on, when no edit starts between the token and `b`. */
  lemma {:induction false} OneEdit(sql: string, edits: map<nat, Edit>, off: nat, n: nat, b: nat, text: string,
                                   r: string, now: string)
    requires off in edits && edits[off] == Edit(n, r) && 1 <= n && off + n <= b <= |sql|
    requires forall o :: off + n <= o < b ==> o !in edits
    requires b <= |text| && forall k :: 0 <= k < b ==> text[k] == sql[k]
    requires Becomes(sql, edits, b, text, b)
    requires |now| == |text| + |r| - n && Shown(r, now, off)
    requires forall k :: 0 <= k < off ==> now[k] == text[k]
    requires forall k :: off + |r| <= k < |now| ==> now[k] == text[k - |r| + n]
    ensures Becomes(sql, edits, off, now, off)
    ensures forall k :: 0 <= k < off ==> now[k] == sql[k]
  {
    var end := off + n;
    assert forall k :: end <= k < b ==> sql[k] == text[end + (k - end)];
    NothingToEdit(sql, edits, end, b, text, end);
    Moved(sql, edits, end, text, end, now, off + |r|);
  }

  /** Taking the last token off a list of the tokens before `b`. */
  lemma OneLess(was: seq<RenameToken>, cur: seq<RenameToken>, b: nat, k: nat)
    requires Remaining(was, cur, b)
    requires IsLast(cur, k) && forall i, j :: 0 <= i < j < |cur| ==> cur[i] != cur[j]
    requires forall t, u :: t in was && u in was && t != u ==> t.off + t.n <= u.off || u.off + u.n <= t.off
    requires forall t :: t in was ==> 1 <= t.n
    ensures Remaining(was, Without(cur, k), cur[k].off)
    ensures cur[k] in was && cur[k].off + cur[k].n <= b
    ensures forall t :: t in was ==> t.off <= cur[k].off || b <= t.off
  {
    var left := Without(cur, k);
    assert cur[k] in cur;
    forall t | t in left ensures t in was && t.off + t.n <= cur[k].off {
      assert t in cur && t != cur[k];
    }
    forall t | t in cur ensures t in left || t == cur[k] {
      var i: nat :| i < |cur| && cur[i] == t;
      assert i != k ==> left[if i < k then i else i - 1] == t;
    }
  }

  lemma NoEditBetween(mode: Mode, sql: string, was: seq<RenameToken>, t: RenameToken, b: nat)
    requires Tokens(mode, sql, was) && t in was
    requires forall u :: u in was ==> u.off <= t.off || b <= u.off
    ensures forall o :: t.off + t.n <= o < b ==> o !in EditsOf(mode, sql, was)
    ensures t.off in EditsOf(mode, sql, was)
    ensures EditsOf(mode, sql, was)[t.off] == Edit(t.n, Replacement(mode, sql, t.off, t.n))
  {
    EditsAre(mode, sql, was);
  }

  /** `t` is the next edit to make, and `left` what is left to do after it. */
  ghost predicate IsNext(mode: Mode, sql: string, was: seq<RenameToken>, left: seq<RenameToken>, b: nat, t: RenameToken)
  {
    && IsToken(mode, sql, t.off, t.n) && t.off + t.n <= b
    && Remaining(was, left, t.off)
    && t.off in EditsOf(mode, sql, was)
    && EditsOf(mode, sql, was)[t.off] == Edit(t.n, Replacement(mode, sql, t.off, t.n))
    && forall o :: t.off + t.n <= o < b ==> o !in EditsOf(mode, sql, was)
  }

  lemma LastIsNext(mode: Mode, sql: string, was: seq<RenameToken>, cur: seq<RenameToken>, b: nat, k: nat)
    requires Tokens(mode, sql, was) && Remaining(was, cur, b)
    requires IsLast(cur, k) && forall i, j :: 0 <= i < j < |cur| ==> cur[i] != cur[j]
    ensures IsNext(mode, sql, was, Without(cur, k), b, cur[k])
  {
    OneLess(was, cur, b, k);
    NoEditBetween(mode, sql, was, cur[k], b);
    assert IsToken(mode, sql, cur[k].off, cur[k].n);
  }

  lemma ProgressStep(sql: string, edits: map<nat, Edit>, room: nat, budget: nat, less: nat,
                     off: nat, n: nat, b: nat, text: string, r: string, now: string)
    requires Progress(sql, edits, room, budget, b, text)
    requires off in edits && edits[off] == Edit(n, r) && 1 <= n && off + n <= b
    requires forall o :: off + n <= o < b ==> o !in edits
    requires |r| - n + less <= budget && NoNul(r)
    requires |now| == |text| + |r| - n && Shown(r, now, off)
    requires forall k :: 0 <= k < off ==> now[k] == text[k]
    requires forall k :: off + |r| <= k < |now| ==> now[k] == text[k - |r| + n]
    ensures Progress(sql, edits, room, less, off, now)
  {
    OneEdit(sql, edits, off, n, b, text, r, now);
    forall k | 0 <= k < |now| ensures now[k] != NUL {
      if off <= k < off + |r| { assert r[k - off] == now[off + (k - off)]; }
    }
  }

  lemma NoEditBefore(mode: Mode, sql: string, was: seq<RenameToken>, b: nat)
    requires Tokens(mode, sql, was) && Remaining(was, [], b)
    ensures forall o :: 0 <= o < b ==> o !in EditsOf(mode, sql, was)
  {
    EditsAre(mode, sql, was);
  }

  lemma {:induction false} AllDone(mode: Mode, sql: string, was: seq<RenameToken>, room: nat, b: nat, text: string)
    requires Tokens(mode, sql, was) && Remaining(was, [], b)
    requires Progress(sql, EditsOf(mode, sql, was), room, Budget(mode, 0, b), b, text)
    ensures text == Substitute(sql, EditsOf(mode, sql, was), 0)
  {
    NoEditBefore(mode, sql, was, b);
    assert forall k :: 0 <= k < b ==> sql[k] == text[0 + (k - 0)];
    NothingToEdit(sql, EditsOf(mode, sql, was), 0, b, text, 0);
    BecomesIsSubstitute(sql, EditsOf(mode, sql, was), 0, text, 0);
  }

  /** `zReplace` and `nReplace` of one turn of the loop. */
  method ReplacementText(z: array<char>, mode: Mode, nQuot: nat, sql: string, off: nat, n: nat)
    returns (zReplace: string)
    requires NoNul(sql) && IsToken(mode, sql, off, n) && nQuot == NQuot(mode)
    requires mode.QuoteFix? ==> z.Length == 3 * (2 * |sql| + 1)
    modifies z
    ensures zReplace == Replacement(mode, sql, off, n)
    ensures forall k :: 0 <= k < z.Length && (mode.QuoteFix? ==> k < 2 * |sql| + 1) ==> z[k] == old(z[k])
  {
    if mode.QuoteFix? {
      zReplace := Requote(z, sql, off, n);
    } else if !mode.bQuote && IsIdChar(ByteAt(sql, off)) {
      zReplace := mode.zNew;
    } else {
      var zQuot := Quoted(mode.zNew, '"') + " ";
      zReplace := zQuot[..nQuot + if ByteAt(sql, off + n) == '"' then 1 else 0];
    }
  }

  /** The replacement of one token in the buffer. */
  method Overwrite(z: array<char>, mode: Mode, nQuot: nat, sql: string, off: nat, n: nat, nOut: nat,
                   ghost edits: map<nat, Edit>, ghost room: nat, ghost budget: nat, ghost less: nat,
                   ghost b: nat, ghost text: string)
    returns (m: nat, ghost now: string)
    requires NoNul(sql) && (mode.Rename? ==> NoNul(mode.zNew)) && nQuot == NQuot(mode)
    requires room < z.Length && Growth(mode, n) + less <= budget
    requires mode.QuoteFix? ==> room == 2 * |sql| && z.Length == 3 * (2 * |sql| + 1)
    requires Progress(sql, edits, room, budget, b, text)
    requires IsToken(mode, sql, off, n) && off + n <= b
    requires off in edits && edits[off] == Edit(n, Replacement(mode, sql, off, n))
    requires forall o :: off + n <= o < b ==> o !in edits
    requires nOut == |text| && Holds(z, 0, text)
    modifies z
    ensures Progress(sql, edits, room, less, off, now)
    ensures m == |now| && Holds(z, 0, now)
  {
    ReplacementFits(mode, sql, off, n);
    var zReplace := ReplacementText(z, mode, nQuot, sql, off, n);
    m, now := Splice(z, nOut, off, n, zReplace, text);
    ProgressStep(sql, edits, room, budget, less, off, n, b, text, zReplace, now);
  }

  /** The token that one turn of the loop takes off the list. */
  method NextToken(ctx: RenameCtx, ghost mode: Mode, ghost sql: string, ghost was: seq<RenameToken>, ghost b: nat)
    returns (best: RenameToken)
    requires ctx.Valid() && ctx.nodes != [] && Remaining(was, ctx.nodes, b) && Tokens(mode, sql, was)
    modifies ctx, ctx.nodes
    ensures ctx.Valid() && |ctx.nodes| == |old(ctx.nodes)| - 1
    ensures forall i :: 0 <= i < |ctx.nodes| ==> ctx.nodes[i] in old(ctx.nodes)
    ensures IsNext(mode, sql, was, ctx.nodes, b, best)
  {
    ghost var cur := ctx.nodes;
    best := ctx.ColumnTokenNext();
    ghost var k: nat :| IsLast(cur, k) && best == cur[k] && ctx.nodes == Without(cur, k);
    LastIsNext(mode, sql, was, cur, b, k);
  }

  /** One turn of the loop of `renameEditSql`. */
  method Turn(ctx: RenameCtx, z: array<char>, mode: Mode, nQuot: nat, sql: string, nOut: nat,
              ghost was: seq<RenameToken>, ghost edits: map<nat, Edit>, ghost room: nat, ghost b: nat,
              ghost text: string)
    returns (m: nat, ghost c: nat, ghost now: string)
    requires ctx.Valid() && ctx.nodes != [] && Remaining(was, ctx.nodes, b)
    requires NoNul(sql) && (mode.Rename? ==> NoNul(mode.zNew)) && nQuot == NQuot(mode)
    requires Tokens(mode, sql, was) && edits == EditsOf(mode, sql, was)
    requires room < z.Length
    requires mode.QuoteFix? ==> room == 2 * |sql| && z.Length == 3 * (2 * |sql| + 1)
    requires Progress(sql, edits, room, Budget(mode, |ctx.nodes|, b), b, text)
    requires nOut == |text| && Holds(z, 0, text)
    modifies ctx, ctx.nodes, z
    ensures ctx.Valid() && |ctx.nodes| == |old(ctx.nodes)| - 1 && Remaining(was, ctx.nodes, c)
    ensures forall i :: 0 <= i < |ctx.nodes| ==> ctx.nodes[i] in old(ctx.nodes)
    ensures Progress(sql, edits, room, Budget(mode, |ctx.nodes|, c), c, now)
    ensures m == |now| && Holds(z, 0, now)
  {
    ghost var left := |ctx.nodes|;
    var best := NextToken(ctx, mode, sql, was, b);
    c := best.off;
    BudgetForOne(mode, left, c, best.n, b);
    m, now := Overwrite(z, mode, nQuot, sql, best.off, best.n, nOut, edits, room,
      Budget(mode, left, b), Budget(mode, left - 1, c), b, text);
  }

  /** The new statement is the old one with every token of the list replaced at once.  Every
      byte written lies inside the allocation, whose size is the one the source computes. */
  method RenameEditSql(ctx: RenameCtx, sql: string, mode: Mode) returns (zOut: array<char>)
    requires ctx.Valid() && ctx.nList == |ctx.nodes|
    requires sql != "" && NoNul(sql) && (mode.Rename? ==> NoNul(mode.zNew))
    requires Tokens(mode, sql, ctx.nodes)
    modifies ctx, ctx.nodes
    ensures ctx.Valid() && ctx.nodes == []
    ensures var text := Substitute(sql, EditsOf(mode, sql, old(ctx.nodes)), 0);
      Holds(zOut, 0, text) && NoNul(text) && |text| <= Room(mode, |sql|, old(ctx.nList))
    ensures fresh(zOut)
    ensures zOut.Length == if mode.Rename? then |sql| + old(ctx.nList) * NQuot(mode) + 1 else 3 * (2 * |sql| + 1)
  {
    var size := if mode.Rename? then |sql| + ctx.nList * NQuot(mode) + 1 else 3 * (2 * |sql| + 1);
    zOut := new char[size](i => NUL);
    MemCpy(zOut, 0, sql);
    EditAll(ctx, zOut, sql, mode, Room(mode, |sql|, ctx.nList));
  }

  /** The loop of `renameEditSql`. */
  method EditAll(ctx: RenameCtx, zOut: array<char>, sql: string, mode: Mode, ghost room: nat)
    requires ctx.Valid() && NoNul(sql) && (mode.Rename? ==> NoNul(mode.zNew))
    requires Tokens(mode, sql, ctx.nodes) && Holds(zOut, 0, sql)
    requires room < zOut.Length && |sql| + Budget(mode, |ctx.nodes|, |sql|) <= room
    requires mode.QuoteFix? ==> room == 2 * |sql| && zOut.Length == 3 * (2 * |sql| + 1)
    modifies ctx, ctx.nodes, zOut
    ensures ctx.Valid() && ctx.nodes == []
    ensures var text := Substitute(sql, EditsOf(mode, sql, old(ctx.nodes)), 0);
      Holds(zOut, 0, text) && NoNul(text) && |text| <= room
  {
    ghost var was := ctx.nodes;
    ghost var edits := EditsOf(mode, sql, was);
    var nOut, nQuot := |sql|, NQuot(mode);
    ghost var b: nat, text := |sql|, sql;
    while ctx.pList != null
      invariant ctx.Valid() && Remaining(was, ctx.nodes, b)
      invariant forall i :: 0 <= i < |ctx.nodes| ==> ctx.nodes[i] in was
      invariant Progress(sql, edits, room, Budget(mode, |ctx.nodes|, b), b, text)
      invariant nOut == |text| && Holds(zOut, 0, text)
      decreases |ctx.nodes|
    {
      nOut, b, text := Turn(ctx, zOut, mode, nQuot, sql, nOut, was, edits, room, b, text);
    }
    AllDone(mode, sql, was, room, b, text);
  }
}
