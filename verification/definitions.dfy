/** A list split at its separators, up to the first terminator: the definitions of a table. */
module Definitions {

  /** How the elements of a list are told apart. */
  datatype Marks<!T> = Marks(isComma: T -> bool, isEnd: T -> bool)

  function Split<T>(s: seq<T>, m: Marks<T>): (r: seq<seq<T>>)
    ensures r != []
  {
    if s == [] || m.isEnd(s[0]) then [[]]
    else
      var rest := Split(s[1..], m);
      if m.isComma(s[0]) then [[]] + rest else [[s[0]] + rest[0]] + rest[1..]
  }

  function Commas<T>(s: seq<T>, m: Marks<T>): nat
  {
    if s == [] then 0 else (if m.isComma(s[0]) then 1 else 0) + Commas(s[1..], m)
  }

  ghost predicate Open<T>(s: seq<T>, m: Marks<T>)
  {
    forall k :: 0 <= k < |s| ==> !m.isEnd(s[k])
  }

  function Removed<T>(s: seq<T>, k: nat): seq<T>
    requires k < |s|
  {
    s[..k] + s[k + 1..]
  }

  /** The definitions of `a + b`: the last one of `a` goes on with the first one of `b`. */
  function Glue<T>(a: seq<seq<T>>, b: seq<seq<T>>): seq<seq<T>>
    requires a != [] && b != []
  {
    if |a| == 1 then [a[0] + b[0]] + b[1..] else [a[0]] + Glue(a[1..], b)
  }

  lemma {:induction false} SplitConcat<T>(a: seq<T>, b: seq<T>, m: Marks<T>)
    requires Open(a, m)
    ensures Split(a + b, m) == Glue(Split(a, m), Split(b, m))
    ensures |Split(a, m)| == Commas(a, m) + 1
  {
    if a == [] {
      assert a + b == b;
      assert [] + Split(b, m)[0] == Split(b, m)[0];
    } else {
      assert (a + b)[1..] == a[1..] + b;
      SplitConcat(a[1..], b, m);
      var rest := Split(a[1..], m);
      if !m.isComma(a[0]) {
        assert ([a[0]] + rest[0]) + Split(b, m)[0] == [a[0]] + (rest[0] + Split(b, m)[0]);
        assert ([[a[0]] + rest[0]] + rest[1..])[1..] == rest[1..];
      } else {
        assert ([[]] + rest)[1..] == rest;
      }
    }
  }

  lemma {:induction false} GlueAt<T>(a: seq<seq<T>>, b: seq<seq<T>>, k: nat)
    requires a != [] && b != [] && k < |a| + |b| - 1
    ensures |Glue(a, b)| == |a| + |b| - 1
    ensures Glue(a, b)[k] == if k < |a| - 1 then a[k] else if k == |a| - 1 then a[k] + b[0] else b[k - |a| + 1]
  {
    if |a| > 1 && k > 0 {
      GlueAt(a[1..], b, k - 1);
    } else if |a| > 1 {
      GlueAt(a[1..], b, 0);
    }
  }

  /** The lists that taking out one definition works on: `x` has it as its first, `c` follows. */
  lemma {:induction false} GlueRemoves<T>(a: seq<seq<T>>, x: seq<seq<T>>, y: seq<seq<T>>, k: nat)
    requires a != [] && y != [] && |x| == |y| + 1
    requires (k == |a| - 1 && a[k] == [] && x[1..] == y)
      || (k == |a| && y[0] == [] && x[0] == [] && x[2..] == y[1..])
    ensures k < |Glue(a, x)| && Glue(a, y) == Removed(Glue(a, x), k)
  {
    GlueAt(a, y, 0);
    GlueAt(a, x, 0);
    var l, r := Glue(a, y), Removed(Glue(a, x), k);
    forall i | 0 <= i < |l| ensures l[i] == r[i] {
      GlueAt(a, y, i);
      GlueAt(a, x, i);
      GlueAt(a, x, i + 1);
      if i == |a| - 1 {
        assert k == i ==> y[0] == x[1] && a[i] + y[0] == y[0];
      } else if i > |a| - 1 {
        var n := i - |a| + 1;
        assert k == |a| - 1 ==> x[1..][n] == y[n];
        assert k == |a| ==> x[2..][n - 1] == y[1..][n - 1];
      }
    }
  }

  /** Taking one definition and the comma behind it out of a list. */
  lemma {:induction false} WithoutFirst<T>(a: seq<T>, d: seq<T>, comma: T, c: seq<T>, m: Marks<T>)
    requires Open(a, m) && Open(d, m) && Commas(d, m) == 0 && m.isComma(comma) && !m.isEnd(comma)
    requires Commas(a, m) < |Split(a, m)| && Split(a, m)[Commas(a, m)] == []
    ensures Commas(a, m) < |Split(a + (d + ([comma] + c)), m)|
    ensures Split(a + c, m) == Removed(Split(a + (d + ([comma] + c)), m), Commas(a, m))
  {
    var rest := d + ([comma] + c);
    SplitConcat(a, c, m);
    SplitConcat(a, rest, m);
    SplitConcat(d, [comma] + c, m);
    assert ([comma] + c)[1..] == c;
    assert Split([comma] + c, m) == [[]] + Split(c, m);
    assert Split(rest, m)[1..] == Split(c, m);
    GlueRemoves(Split(a, m), Split(rest, m), Split(c, m), Commas(a, m));
  }

  /** Taking one definition and the comma before it out of a list. */
  lemma {:induction false} WithoutLast<T>(a: seq<T>, comma: T, d: seq<T>, c: seq<T>, m: Marks<T>)
    requires Open(a, m) && Open(d, m) && Commas(d, m) == 0 && m.isComma(comma) && !m.isEnd(comma)
    requires Split(c, m)[0] == []
    ensures Commas(a, m) + 1 < |Split(a + ([comma] + (d + c)), m)|
    ensures Split(a + c, m) == Removed(Split(a + ([comma] + (d + c)), m), Commas(a, m) + 1)
  {
    var rest := [comma] + (d + c);
    SplitConcat(a, c, m);
    SplitConcat(a, rest, m);
    SplitConcat(d, c, m);
    assert rest[1..] == d + c;
    assert Split(rest, m) == [[]] + Split(d + c, m);
    assert Split(rest, m)[2..] == Split(d + c, m)[1..];
    GlueRemoves(Split(a, m), Split(rest, m), Split(c, m), Commas(a, m) + 1);
  }

  lemma {:induction false} CommasConcat<T>(a: seq<T>, b: seq<T>, m: Marks<T>)
    ensures Commas(a + b, m) == Commas(a, m) + Commas(b, m)
  {
    if a == [] {
      assert a + b == b;
    } else {
      assert (a + b)[1..] == a[1..] + b;
      CommasConcat(a[1..], b, m);
    }
  }

  /** After a comma, the last definition so far is empty. */
  lemma {:induction false} AfterComma<T>(a: seq<T>, comma: T, m: Marks<T>)
    requires Open(a, m) && m.isComma(comma) && !m.isEnd(comma)
    ensures var s := a + [comma];
      && Commas(s, m) == Commas(a, m) + 1 < |Split(s, m)| && Split(s, m)[Commas(s, m)] == []
  {
    SplitConcat(a, [comma], m);
    assert [comma][1..] == [];
    assert Split([comma], m) == [[], []];
    CommasConcat(a, [comma], m);
    GlueAt(Split(a, m), Split([comma], m), |Split(a, m)|);
  }
}
