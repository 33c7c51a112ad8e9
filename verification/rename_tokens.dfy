/** The two linked lists of rename tokens in alter.c: the list that the parser builds
    (`Parse.pRename`) and the list of tokens to overwrite (`RenameCtx.pList`). */
module RenameTokens {

  class RenameToken {
    const p: nat      // the parse-tree element the token created, 0 for a null pointer
    const off: nat    // where the token starts in the statement: t.z - zSql
    const n: nat      // t.n
    var pNext: RenameToken?

    constructor (p: nat, off: nat, n: nat, pNext: RenameToken?)
      ensures this.p == p && this.off == off && this.n == n && this.pNext == pNext
    {
      this.p, this.off, this.n, this.pNext := p, off, n, pNext;
    }
  }

  function At(nodes: seq<RenameToken>, i: nat): RenameToken?
  {
    if i < |nodes| then nodes[i] else null
  }

  /** The list starting at `head` runs through exactly `nodes`, in order. */
  ghost predicate Linked(head: RenameToken?, nodes: seq<RenameToken>)
    reads nodes
  {
    && head == At(nodes, 0)
    && (forall i :: 0 <= i < |nodes| ==> nodes[i].pNext == At(nodes, i + 1))
    && forall i, j :: 0 <= i < j < |nodes| ==> nodes[i] != nodes[j]
  }

  /** `nodes` without its element `k`. */
  function Without(nodes: seq<RenameToken>, k: nat): (r: seq<RenameToken>)
    requires k < |nodes|
    ensures |r| == |nodes| - 1
    ensures forall i :: 0 <= i < |r| ==> r[i] == nodes[if i < k then i else i + 1]
  {
    nodes[..k] + nodes[k + 1..]
  }

  ghost predicate Apart(a: seq<RenameToken>, b: seq<RenameToken>)
  {
    forall i, j :: 0 <= i < |a| && 0 <= j < |b| ==> a[i] != b[j]
  }

  /** `*pp = victim->pNext`, where `pp` is the `pNext` of `prev`, or the head of the list. */
  method Unlink(head: RenameToken?, prev: RenameToken?, victim: RenameToken,
                ghost nodes: seq<RenameToken>, ghost k: nat) returns (h: RenameToken?)
    requires Linked(head, nodes) && k < |nodes| && victim == nodes[k]
    requires prev == if k == 0 then null else nodes[k - 1]
    modifies prev
    ensures Linked(h, Without(nodes, k))
  {
    if prev == null {
      h := victim.pNext;
    } else {
      h := head;
      prev.pNext := victim.pNext;
    }
  }

  /** The first node for parse-tree element `p`, or the length. */
  function FirstFor(nodes: seq<RenameToken>, p: nat): (k: nat)
    ensures k <= |nodes|
    ensures k < |nodes| ==> nodes[k].p == p
    ensures forall i :: 0 <= i < k ==> nodes[i].p != p
  {
    if nodes == [] then 0
    else if nodes[0].p == p then 0
    else
      var k := FirstFor(nodes[1..], p);
      assert forall i :: 0 < i <= k ==> nodes[i] == nodes[1..][i - 1];
      1 + k
  }

  /** `k` is the first of the nodes that start last in the statement. */
  ghost predicate IsLast(nodes: seq<RenameToken>, k: nat)
  {
    && k < |nodes|
    && (forall i :: 0 <= i < |nodes| ==> nodes[i].off <= nodes[k].off)
    && forall i :: 0 <= i < k ==> nodes[i].off < nodes[k].off
  }

  class Parse {
    var pRename: RenameToken?
    ghost var nodes: seq<RenameToken>

    constructor ()
      ensures nodes == [] && Valid()
    {
      pRename, nodes := null, [];
    }

    ghost predicate Valid()
      reads this, nodes
    {
      Linked(pRename, nodes)
    }
  }

  class RenameCtx {
    var pList: RenameToken?
    var nList: nat
    ghost var nodes: seq<RenameToken>

    constructor ()
      ensures nodes == [] && nList == 0 && Valid()
    {
      pList, nList, nodes := null, 0, [];
    }

    ghost predicate Valid()
      reads this, nodes
    {
      Linked(pList, nodes)
    }

    /** The first loop of `renameColumnTokenNext`. */
    method LastToken() returns (best: RenameToken, ghost k: nat)
      requires Valid() && nodes != []
      ensures IsLast(nodes, k) && best == nodes[k]
    {
      k := 0;
      ghost var i := 1;
      best := pList;
      var token := best.pNext;
      while token != null
        invariant 1 <= i <= |nodes| && k < i && best == nodes[k] && token == At(nodes, i)
        invariant forall j :: 0 <= j < i ==> nodes[j].off <= nodes[k].off
        invariant forall j :: 0 <= j < k ==> nodes[j].off < nodes[k].off
        decreases |nodes| - i
      {
        if token.off > best.off {
          best, k := token, i;
        }
        token, i := token.pNext, i + 1;
      }
    }

    /** The second loop: the token whose `pNext` is `best`, or null for the head of the list. */
    method TokenBefore(best: RenameToken, ghost k: nat) returns (prev: RenameToken?)
      requires Valid() && k < |nodes| && best == nodes[k]
      ensures prev == if k == 0 then null else nodes[k - 1]
    {
      prev := null;
      var here := pList;
      ghost var j := 0;
      while here != best
        invariant j <= k && here == nodes[j] && prev == if j == 0 then null else nodes[j - 1]
        decreases k - j
      {
        prev, here, j := here, here.pNext, j + 1;
      }
    }

    /** `renameColumnTokenNext`: unlinks the token that starts last in the statement.  It
        leaves `nList`, the size of the output allocation, alone. */
    method ColumnTokenNext() returns (best: RenameToken)
      requires Valid() && nodes != []
      modifies this, nodes
      ensures Valid() && nList == old(nList)
      ensures exists k: nat :: IsLast(old(nodes), k) && best == old(nodes)[k] && nodes == Without(old(nodes), k)
    {
      ghost var k;
      best, k := LastToken();
      var prev := TokenBefore(best, k);
      pList := Unlink(pList, prev, best, nodes, k);
      nodes := Without(nodes, k);
    }

    method Push(token: RenameToken)
      requires Valid() && forall j :: 0 <= j < |nodes| ==> nodes[j] != token
      modifies this, token
      ensures Valid() && nodes == [token] + old(nodes) && nList == old(nList) + 1
    {
      token.pNext := pList;
      pList, nList := token, nList + 1;
      nodes := [token] + nodes;
    }
  }

  /** The two list assignments of `renameTokenFind`: token `k` leaves the parser's list and
      becomes the first of the context's. */
  method Move(parse: Parse, ctx: RenameCtx, prev: RenameToken?, token: RenameToken, ghost k: nat)
    requires parse.Valid() && ctx.Valid() && Apart(parse.nodes, ctx.nodes)
    requires k < |parse.nodes| && token == parse.nodes[k]
    requires prev == if k == 0 then null else parse.nodes[k - 1]
    modifies parse, ctx, parse.nodes
    ensures parse.Valid() && parse.nodes == Without(old(parse.nodes), k)
    ensures ctx.Valid() && ctx.nodes == [token] + old(ctx.nodes) && ctx.nList == old(ctx.nList) + 1
    ensures Apart(parse.nodes, ctx.nodes)
  {
    ghost var left, to := Without(parse.nodes, k), ctx.nodes;
    StayApart(parse.nodes, to, k);
    parse.pRename := Unlink(parse.pRename, prev, token, parse.nodes, k);
    assert Linked(ctx.pList, to);
    parse.nodes := left;
    ctx.Push(token);
    assert Linked(parse.pRename, left);
  }

  lemma StayApart(from: seq<RenameToken>, to: seq<RenameToken>, k: nat)
    requires k < |from| && Apart(from, to)
    requires forall i, j :: 0 <= i < j < |from| ==> from[i] != from[j]
    ensures Apart(Without(from, k), [from[k]] + to)
    ensures forall j :: 0 <= j < |to| ==> to[j] != from[k]
    ensures forall i :: 0 <= i < |from| - 1 ==> Without(from, k)[i] != from[k]
  {
  }

  /** `renameTokenFind`: finds the token of a parse-tree element; given a context, it also moves
      the token from the parser's list to the front of the context's. */
  method RenameTokenFind(parse: Parse, ctx: RenameCtx?, pPtr: nat) returns (token: RenameToken?)
    requires parse.Valid()
    requires ctx != null ==> ctx.Valid() && Apart(parse.nodes, ctx.nodes)
    modifies parse, ctx, parse.nodes
    ensures parse.Valid() && (ctx != null ==> ctx.Valid())
    ensures token == if pPtr == 0 then null else old(At(parse.nodes, FirstFor(parse.nodes, pPtr)))
    ensures token == null || ctx == null ==> parse.nodes == old(parse.nodes)
    ensures token == null && ctx != null ==> ctx.nodes == old(ctx.nodes) && ctx.nList == old(ctx.nList)
    ensures token != null && ctx != null ==>
      && parse.nodes == Without(old(parse.nodes), FirstFor(old(parse.nodes), pPtr))
      && ctx.nodes == [token] + old(ctx.nodes) && ctx.nList == old(ctx.nList) + 1
    ensures ctx != null ==> Apart(parse.nodes, ctx.nodes)
  {
    if pPtr == 0 {
      return null;
    }
    ghost var was := parse.nodes;
    ghost var k := 0;
    var prev: RenameToken? := null;
    token := parse.pRename;
    while token != null
      invariant k <= |was| && token == At(was, k) && prev == if k == 0 then null else was[k - 1]
      invariant forall i :: 0 <= i < k ==> was[i].p != pPtr
      decreases |was| - k
    {
      if token.p == pPtr {
        assert k == FirstFor(was, pPtr);
        if ctx != null {
          Move(parse, ctx, prev, token, k);
        }
        return;
      }
      prev, token, k := token, token.pNext, k + 1;
    }
  }

  /** Moving a token keeps every token in exactly one of the two lists. */
  lemma MovesConserve(from: seq<RenameToken>, to: seq<RenameToken>, k: nat)
    requires k < |from|
    ensures multiset(Without(from, k)) + multiset([from[k]] + to) == multiset(from) + multiset(to)
  {
    assert from == from[..k] + [from[k]] + from[k + 1..];
  }
}
