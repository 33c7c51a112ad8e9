/** What the parts of a glob pattern stand for: the items of a class, its end, and a number. */
module GlobItems {
  import opened Glob

  // ---- Classes ----

  /** One entry of a class; a character `c` is the entry from `c` to `c`. */
  datatype Item = Item(low: char, high: char)

  predicate Covers(item: Item, c: char) { c == item.low || item.low <= c <= item.high }

  /** The entries from index `i` up to the closing bracket. */
  function ItemsFrom(p: string, i: nat): seq<Item>
    decreases |p| - i
  {
    if i >= |p| || p[i] == ']' then []
    else if i + 2 < |p| && p[i + 1] == '-' && p[i + 2] != ']' then [Item(p[i], p[i + 2])] + ItemsFrom(p, i + 3)
    else [Item(p[i], p[i])] + ItemsFrom(p, i + 1)
  }

  /** All entries of the class whose `[` is at `i`; a bracket right behind `[` or `[^` is one. */
  function Items(p: string, i: nat): seq<Item>
  {
    var a := if i + 1 < |p| && p[i + 1] == '^' then i + 2 else i + 1;
    if a < |p| && p[a] == ']' then [Item(']', ']')] + ItemsFrom(p, a + 1) else ItemsFrom(p, a)
  }

  predicate Covered(items: seq<Item>, c: char) { exists k :: 0 <= k < |items| && Covers(items[k], c) }

  lemma CoveredCons(first: Item, rest: seq<Item>, c: char)
    ensures Covered([first] + rest, c) <==> Covers(first, c) || Covered(rest, c)
  {
    var items := [first] + rest;
    if Covers(first, c) { assert Covers(items[0], c); }
    if k :| 0 <= k < |rest| && Covers(rest[k], c) { assert Covers(items[k + 1], c); }
  }

  lemma {:induction false} HasItemIff(p: string, i: nat, c: char)
    ensures HasItem(p, i, c) <==> Covered(ItemsFrom(p, i), c)
    decreases |p| - i
  {
    if i < |p| && p[i] != ']' {
      var step := if IsRange(p, i) then 3 else 1;
      HasItemIff(p, i + step, c);
      CoveredCons(ItemsFrom(p, i)[0], ItemsFrom(p, i + step), c);
    }
  }

  lemma {:induction false} ItemsEndIs(p: string, i: nat)
    requires i <= |p|
    ensures var e := ItemsEnd(p, i);
      && i < e <= |p| + 1 && (e <= |p| ==> p[e - 1] == ']')
      && forall k :: i <= k < e - 1 ==> p[k] != ']'
    decreases |p| - i
  {
    if i < |p| && p[i] != ']' { ItemsEndIs(p, if IsRange(p, i) then i + 3 else i + 1); }
  }

  /** A class ends at the first closing bracket that is not its first character, and matches a
      character if it has such an end and an entry covers the character; with `^`, if none does. */
  lemma ClassIs(p: string, i: nat, c: char)
    requires i < |p| && p[i] == '['
    ensures var first := if i + 1 < |p| && p[i + 1] == '^' then i + 3 else i + 2;
      var e := ClassEnd(p, i);
      && (e <= |p| ==> first < e && p[e - 1] == ']' && forall k :: first <= k < e - 1 ==> p[k] != ']')
      && (e > |p| ==> forall k :: first <= k < |p| ==> p[k] != ']')
    ensures InClass(p, i, c) <==>
      ClassEnd(p, i) <= |p| && Covered(Items(p, i), c) != (i + 1 < |p| && p[i + 1] == '^')
  {
    ItemsEndIs(p, FirstItem(p, i));
    HasItemIff(p, FirstItem(p, i), c);
    CoveredCons(Item(']', ']'), ItemsFrom(p, FirstItem(p, i)), c);
  }

  /** `[x-y]` and `[^x-y]` */
  lemma RangeIs(x: char, y: char, c: char)
    requires x != '^' && x != ']' && y != ']'
    ensures InClass(['[', x, '-', y, ']'], 0, c) <==> c == x || x <= c <= y
    ensures InClass(['[', '^', x, '-', y, ']'], 0, c) <==> !(c == x || x <= c <= y)
  {
    var p := ['[', x, '-', y, ']'];
    assert HasItem(p, 1, c) <==> c == x || x <= c <= y || HasItem(p, 4, c);
    assert ItemsEnd(p, 1) == 5 by { assert ItemsEnd(p, 4) == 5; }
    var q := ['[', '^', x, '-', y, ']'];
    assert HasItem(q, 2, c) <==> c == x || x <= c <= y || HasItem(q, 5, c);
    assert ItemsEnd(q, 2) == 6 by { assert ItemsEnd(q, 5) == 6; }
  }

  // ---- Numbers ----

  /** An optional sign, and then one or more digits. */
  predicate IsNumber(z: string)
  {
    var d := if z != "" && (z[0] == '+' || z[0] == '-') then 1 else 0;
    d < |z| && forall k :: d <= k < |z| ==> '0' <= z[k] <= '9'
  }

  lemma {:induction false} DigitsEndIs(z: string, j: nat)
    requires j <= |z|
    ensures j <= DigitsEnd(z, j) <= |z|
    ensures forall k :: j <= k < DigitsEnd(z, j) ==> '0' <= z[k] <= '9'
    ensures DigitsEnd(z, j) < |z| ==> !('0' <= z[DigitsEnd(z, j)] <= '9')
    decreases |z| - j
  {
    if j < |z| && '0' <= z[j] <= '9' { DigitsEndIs(z, j + 1); }
  }

  /** The pattern `#` matches the numbers and nothing else. */
  lemma {:induction false} NumberIs(z: string)
    requires NoNul(z)
    ensures Globs("#", 0, z, 0) <==> IsNumber(z)
  {
    var p, d := "#", AfterSign(z, 0);
    assert Globs(p, 0, z, 0) <==> IsDigit(At(z, d)) && Globs(p, 1, z, DigitsEnd(z, d));
    assert Globs(p, 1, z, DigitsEnd(z, d)) <==> DigitsEnd(z, d) == |z|;
    DigitsEndIs(z, d);
  }
}
