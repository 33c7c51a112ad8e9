/** `parserDoubleLinkSelect` of parse.c: the terms of a compound SELECT, linked from the last one
    back to the first by `pPrior`, are linked forward as well. */
module CompoundSelect {
  import opened Options

  class Select {
    var pPrior: Select?
    var pNext: Select?
    var isCompound: bool      // SF_Compound
    const isValues: bool      // SF_MultiValue or SF_Values
    const hasOrderBy: bool
    const hasLimit: bool
    const op: int             // how the term is joined to the ones before it

    constructor (pPrior: Select?, op: int, isValues: bool, hasOrderBy: bool, hasLimit: bool)
      ensures this.pPrior == pPrior && pNext == null && !isCompound && this.op == op
      ensures this.isValues == isValues && this.hasOrderBy == hasOrderBy && this.hasLimit == hasLimit
    {
      this.pPrior, pNext, isCompound, this.op := pPrior, null, false, op;
      this.isValues, this.hasOrderBy, this.hasLimit := isValues, hasOrderBy, hasLimit;
    }
  }

  function At(terms: seq<Select>, i: nat): Select? { if i < |terms| then terms[i] else null }

  function Before(terms: seq<Select>, i: nat): Select? { if 0 < i <= |terms| then terms[i - 1] else null }

  /** `terms` are all terms, the last one written first, linked back by `pPrior`. */
  ghost predicate Chain(terms: seq<Select>)
    reads terms
  {
    && terms != []
    && (forall i :: 0 <= i < |terms| ==> terms[i].pPrior == At(terms, i + 1))
    && forall i, j :: 0 <= i < j < |terms| ==> terms[i] != terms[j]
  }

  predicate HasClause(s: Select) { s.hasOrderBy || s.hasLimit }

  /** "ORDER BY (or: LIMIT) clause should come after OP not before". */
  datatype Misplaced = Misplaced(isOrderBy: bool, op: int)

  /** How many terms are visited: up to the first, other than the last one written, that has an
      ORDER BY or a LIMIT. */
  function Visited(terms: seq<Select>, k: nat): (n: nat)
    requires 1 <= k <= |terms|
    ensures k <= n <= |terms|
    ensures forall i :: k <= i < n ==> !HasClause(terms[i])
    ensures n < |terms| ==> HasClause(terms[n])
    decreases |terms| - k
  {
    if k == |terms| || HasClause(terms[k]) then k else Visited(terms, k + 1)
  }

  /** The terms before index `n` are flagged, and their `pNext` inverts `pPrior`. */
  ghost predicate Linked(terms: seq<Select>, n: nat)
    requires n <= |terms|
    reads terms
  {
    forall i :: 0 <= i < n ==> terms[i].isCompound && terms[i].pNext == Before(terms, i)
  }

  /** Term `k` as it becomes. */
  method LinkTerm(pLoop: Select, pNext: Select?, ghost terms: seq<Select>, ghost k: nat)
    requires Chain(terms) && k < |terms| && Linked(terms, k)
    requires pLoop == terms[k] && pNext == Before(terms, k)
    modifies pLoop
    ensures Chain(terms) && Linked(terms, k + 1)
  {
    pLoop.pNext := pNext;
    pLoop.isCompound := true;
  }

  /** The message about the first misplaced clause. */
  function Message(terms: seq<Select>, n: nat): Option<Misplaced>
    requires 1 <= n <= |terms|
  {
    if n == |terms| then None else Some(Misplaced(terms[n].hasOrderBy, terms[n - 1].op))
  }

  /** The term before `terms[k]` in the statement, and the message if it has a clause that it
      may not have. */
  method Prior(pLoop: Select, ghost terms: seq<Select>, ghost k: nat, ghost n: nat)
    returns (prior: Select?, misplaced: Option<Misplaced>)
    requires Chain(terms) && k < n <= |terms| && pLoop == terms[k] && Visited(terms, k + 1) == n
    ensures prior == At(terms, k + 1)
    ensures misplaced == if k + 1 == n < |terms| then Message(terms, n) else None
    ensures prior != null && misplaced.None? ==> k + 1 < n && Visited(terms, k + 2) == n
    ensures prior == null ==> k + 1 == n == |terms|
  {
    assert terms[k].pPrior == At(terms, k + 1);
    prior := pLoop.pPrior;
    misplaced := None;
    if prior != null && (prior.hasOrderBy || prior.hasLimit) {
      misplaced := Some(Misplaced(prior.hasOrderBy, pLoop.op));
    }
  }

  /** The loop, over the first `n` terms. */
  method LinkTerms(p: Select, ghost terms: seq<Select>, ghost n: nat) returns (misplaced: Option<Misplaced>, cnt: nat)
    requires Chain(terms) && p == terms[0] && n == Visited(terms, 1)
    modifies terms[..n]
    ensures Chain(terms) && Linked(terms, n)
    ensures misplaced == Message(terms, n) && cnt == n + if misplaced.Some? then 1 else 0
  {
    var pNext: Select?, pLoop := null, p;
    cnt := 1;
    ghost var k := 0;
    while true
      invariant k < n && cnt == k + 1 && Visited(terms, k + 1) == n
      invariant pLoop == terms[k] && pNext == Before(terms, k) && Chain(terms) && Linked(terms, k)
      decreases n - k
    {
      assert terms[k] in terms[..n];
      LinkTerm(pLoop, pNext, terms, k);
      var prior;
      prior, misplaced := Prior(pLoop, terms, k, n);
      if prior == null { return; }
      pNext, pLoop := pLoop, prior;
      cnt, k := cnt + 1, k + 1;
      if misplaced.Some? { return; }
    }
  }

  /** The two errors: a clause that has to come after the last term, and too many terms. */
  method DoubleLinkSelect(p: Select, mxSelect: int, ghost terms: seq<Select>)
    returns (misplaced: Option<Misplaced>, tooMany: bool)
    requires Chain(terms) && p == terms[0]
    modifies terms[..Visited(terms, 1)]
    ensures Chain(terms)
    ensures misplaced.Some? <==> exists i :: 1 <= i < |terms| && HasClause(terms[i])
    ensures forall i ::
      (1 <= i < |terms| && (terms[i].hasOrderBy || terms[i].hasLimit)
        && forall j :: 1 <= j < i ==> !terms[j].hasOrderBy && !terms[j].hasLimit)
      ==> misplaced == Some(Misplaced(terms[i].hasOrderBy, terms[i - 1].op))
    ensures |terms| == 1 ==> p.pNext == old(p.pNext) && p.isCompound == old(p.isCompound)
    ensures |terms| > 1 ==> Linked(terms, Visited(terms, 1))
    ensures tooMany <==>
      var cnt := Visited(terms, 1) + if misplaced.Some? then 1 else 0;
      |terms| > 1 && !p.isValues && mxSelect > 0 && cnt > mxSelect
  {
    misplaced, tooMany := None, false;
    if p.pPrior != null {
      var cnt;
      misplaced, cnt := LinkTerms(p, terms, Visited(terms, 1));
      tooMany := !p.isValues && mxSelect > 0 && cnt > mxSelect;
    }
  }

  /** With no error, following `pPrior` and then `pNext` leads back, and so does the converse. */
  lemma NextInvertsPrior(terms: seq<Select>, s: Select, i: nat)
    requires Chain(terms) && Linked(terms, |terms|) && i < |terms| && terms[i] == s
    ensures s.pPrior != null ==> s.pPrior.pNext == s
    ensures s.pNext != null ==> s.pNext.pPrior == s
    ensures s.pNext == null <==> i == 0
    ensures s.pPrior == null <==> i == |terms| - 1
  {
    assert terms[i].pNext == Before(terms, i);
    if i + 1 < |terms| { assert terms[i + 1].pNext == Before(terms, i + 1); }
    if i > 0 { assert terms[i - 1].pPrior == At(terms, i); }
  }
}
