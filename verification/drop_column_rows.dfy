/** DROP COLUMN in alter.c: how every record of the table is rewritten, and that reading it
    through the reduced table gives the old values. */
module DropColumnRows {

  datatype Value = Null | Data(bytes: int)

  /** `deflt` is what OP_Column yields when a record is too short to have the column. */
  datatype Column = Column(isVirtual: bool, deflt: Value)

  /** `key` holds the PRIMARY KEY columns of a WITHOUT ROWID table, and is empty for a rowid
      table; `iPKey` is the INTEGER PRIMARY KEY column of a rowid table, or -1. */
  datatype Table = Table(cols: seq<Column>, withoutRowid: bool, key: seq<nat>, iPKey: int)
  {
    ghost predicate Valid()
    {
      && (forall k :: 0 <= k < |key| ==> key[k] < |cols| && !cols[key[k]].isVirtual)
      && (forall j, k :: 0 <= j < k < |key| ==> key[j] != key[k])
      && (if withoutRowid then key != [] && iPKey == -1 else key == [])
      && (iPKey == -1 || (0 <= iPKey < |cols| && !cols[iPKey].isVirtual))
    }
  }

  /** The columns before `i` that have their place behind the key columns: the others that are
      not virtual, in table order. */
  function Rest(t: Table, i: nat): (r: seq<nat>)
    requires i <= |t.cols|
    ensures |r| <= i
  {
    if i == 0 then []
    else Rest(t, i - 1) + if t.cols[i - 1].isVirtual || i - 1 in t.key then [] else [i - 1]
  }

  /** `aiColumn` of the PRIMARY KEY index, or the order of the record of a rowid table. */
  function Layout(t: Table): seq<nat> { t.key + Rest(t, |t.cols|) }

  /** `sqlite3TableColumnToIndex`. */
  function IndexOf(s: seq<nat>, c: nat): (i: int)
    ensures -1 <= i < |s|
    ensures 0 <= i ==> s[i] == c && c !in s[..i]
    ensures i == -1 ==> c !in s
  {
    if s == [] then -1
    else if s[0] == c then 0
    else
      var i := IndexOf(s[1..], c);
      assert 0 <= i ==> s[..i + 1] == [s[0]] + s[1..][..i];
      if i < 0 then -1 else i + 1
  }

  /** `sqlite3TableColumnToStorage` of a column that is not virtual. */
  function Storage(t: Table, c: nat): nat
    requires c < |t.cols|
  {
    if c == 0 then 0 else Storage(t, c - 1) + if t.cols[c - 1].isVirtual then 0 else 1
  }

  /** Where `Read` finds a column. */
  function Field(t: Table, c: nat): int
    requires c < |t.cols|
  {
    if t.withoutRowid then IndexOf(Layout(t), c) else Storage(t, c)
  }

  /** `sqlite3ExprCodeGetColumnOfTable` of a column that is not virtual: the value of column
      `c` of the row with this rowid and record. */
  function Read(t: Table, rowid: Value, record: seq<Value>, c: nat): Value
    requires c < |t.cols|
  {
    var x := Field(t, c);
    if c == t.iPKey then rowid
    else if 0 <= x < |record| then record[x]
    else t.cols[c].deflt
  }

  // ---- The reduced table ----

  function Renumber(c: nat, iCol: nat): nat { if c > iCol then c - 1 else c }

  /** The table that the rewritten CREATE TABLE statement describes. */
  function Reduced(t: Table, iCol: nat): Table
    requires iCol < |t.cols|
  {
    Table(t.cols[..iCol] + t.cols[iCol + 1..], t.withoutRowid,
      seq(|t.key|, k requires 0 <= k < |t.key| => Renumber(t.key[k], iCol)),
      if t.iPKey > iCol then t.iPKey - 1 else t.iPKey)
  }

  /** DROP COLUMN refuses PRIMARY KEY columns. */
  ghost predicate MayDrop(t: Table, iCol: nat)
  {
    t.Valid() && iCol < |t.cols| && iCol !in t.key && iCol != t.iPKey
  }

  /** It rewrites no records for a virtual one. */
  ghost predicate CanDrop(t: Table, iCol: nat)
  {
    MayDrop(t, iCol) && !t.cols[iCol].isVirtual
  }

  predicate InRest(t: Table, c: nat)
    requires c < |t.cols|
  {
    !t.cols[c].isVirtual && c !in t.key
  }

  // ---- Positions ----

  lemma {:induction false} RestGrows(t: Table, i: nat, j: nat)
    requires i <= j <= |t.cols|
    ensures |Rest(t, i)| <= |Rest(t, j)| && Rest(t, j)[..|Rest(t, i)|] == Rest(t, i)
    ensures i < j && InRest(t, i) ==> |Rest(t, i)| < |Rest(t, j)| && Rest(t, j)[|Rest(t, i)|] == i
    decreases j
  {
    if i < j {
      RestGrows(t, i, j - 1);
    }
  }

  lemma {:induction false} RestIsBelow(t: Table, i: nat)
    requires i <= |t.cols|
    ensures forall k :: 0 <= k < |Rest(t, i)| ==> Rest(t, i)[k] < i && InRest(t, Rest(t, i)[k])
    ensures forall k :: 0 <= k < |Rest(t, i)| ==> |Rest(t, Rest(t, i)[k])| == k
  {
    if i > 0 {
      RestIsBelow(t, i - 1);
    }
  }

  /** A column behind the key has as many fields before it as there are key columns and such
      columns before it. */
  lemma {:induction false} PlaceInLayout(t: Table, c: nat)
    requires t.Valid() && c < |t.cols| && InRest(t, c)
    ensures IndexOf(Layout(t), c) == |t.key| + |Rest(t, c)| < |Layout(t)|
  {
    RestGrows(t, c, |t.cols|);
    var x := |t.key| + |Rest(t, c)|;
    assert Layout(t)[x] == c;
    RestIsBelow(t, c);
    forall k | 0 <= k < x ensures Layout(t)[k] != c {
      if k >= |t.key| {
        assert Layout(t)[k] == Rest(t, |t.cols|)[k - |t.key|] == Rest(t, c)[k - |t.key|];
      }
    }
    FirstIs(Layout(t), c, x);
  }

  lemma {:induction false} FirstIs(s: seq<nat>, c: nat, x: nat)
    requires x < |s| && s[x] == c && forall k :: 0 <= k < x ==> s[k] != c
    ensures IndexOf(s, c) == x
  {
    if x > 0 {
      assert s[0] != c;
      FirstIs(s[1..], c, x - 1);
    }
  }

  lemma KeyInLayout(t: Table, k: nat)
    requires t.Valid() && k < |t.key|
    ensures IndexOf(Layout(t), t.key[k]) == k
  {
    FirstIs(Layout(t), t.key[k], k);
  }

  lemma {:induction false} StorageIsPlace(t: Table, c: nat)
    requires t.key == [] && c < |t.cols|
    ensures Storage(t, c) == |Rest(t, c)|
  {
    if c > 0 { StorageIsPlace(t, c - 1); }
  }

  lemma {:induction false} FieldIs(t: Table, c: nat)
    requires t.Valid() && c < |t.cols| && !t.cols[c].isVirtual
    ensures 0 <= Field(t, c) < |Layout(t)| && Layout(t)[Field(t, c)] == c
    ensures c !in t.key ==> Field(t, c) == |t.key| + |Rest(t, c)|
    ensures forall k :: 0 <= k < |t.key| && t.key[k] == c ==> Field(t, c) == k
  {
    if c in t.key {
      var k :| 0 <= k < |t.key| && t.key[k] == c;
      KeyInLayout(t, k);
    } else {
      PlaceInLayout(t, c);
      if !t.withoutRowid { StorageIsPlace(t, c); }
    }
  }

  /** The order of the fields: every stored column has one, the key columns come first, as they
      are in the key, and the others follow in table order. */
  lemma LayoutIs(t: Table)
    requires t.Valid()
    ensures forall c: nat :: c in Layout(t) <==> c < |t.cols| && !t.cols[c].isVirtual
    ensures |t.key| <= |Layout(t)| && Layout(t)[..|t.key|] == t.key
    ensures forall j, k :: |t.key| <= j < k < |Layout(t)| ==> Layout(t)[j] < Layout(t)[k]
    ensures forall k :: |t.key| <= k < |Layout(t)| ==> Layout(t)[k] !in t.key
  {
    forall k | |t.key| <= k < |Layout(t)| ensures Layout(t)[k] < |t.cols| && InRest(t, Layout(t)[k]) {
      RestAt(t, k);
    }
    forall c: nat | c < |t.cols| && !t.cols[c].isVirtual ensures c in Layout(t) {
      FieldIs(t, c);
    }
    forall j, k | |t.key| <= j < k < |Layout(t)| ensures Layout(t)[j] < Layout(t)[k] {
      RestAt(t, j);
      RestAt(t, k);
      RestAscends(t, |t.cols|);
    }
  }

  lemma {:induction false} RestAt(t: Table, k: nat)
    requires |t.key| <= k < |Layout(t)|
    ensures k - |t.key| < |Rest(t, |t.cols|)| && Layout(t)[k] == Rest(t, |t.cols|)[k - |t.key|]
    ensures Layout(t)[k] < |t.cols| && InRest(t, Layout(t)[k])
  {
    RestIsBelow(t, |t.cols|);
  }

  lemma {:induction false} RestAscends(t: Table, i: nat)
    requires i <= |t.cols|
    ensures forall j, k :: 0 <= j < k < |Rest(t, i)| ==> Rest(t, i)[j] < Rest(t, i)[k]
  {
    if i > 0 {
      RestAscends(t, i - 1);
      RestIsBelow(t, i - 1);
    }
  }

  /** `record` was written with the values `vals` when the table had its first `|record|` fields;
      the INTEGER PRIMARY KEY has its value in the rowid. */
  ghost predicate IsWritten(t: Table, vals: seq<Value>, record: seq<Value>)
    requires t.Valid() && |vals| == |t.cols|
  {
    && |record| <= |Layout(t)|
    && (forall k :: 0 <= k < |Layout(t)| ==> Layout(t)[k] < |t.cols|)
    && forall k :: 0 <= k < |record| && Layout(t)[k] != t.iPKey ==> record[k] == vals[Layout(t)[k]]
  }

  /** What was written is read back, and a column that came later has its default value. */
  lemma ReadsWhatIsWritten(t: Table, rowid: Value, vals: seq<Value>, record: seq<Value>, c: nat)
    requires t.Valid() && |vals| == |t.cols| && IsWritten(t, vals, record)
    requires c < |t.cols| && !t.cols[c].isVirtual
    ensures Read(t, rowid, record, c) ==
      if c == t.iPKey then rowid else if c in Layout(t)[..|record|] then vals[c] else t.cols[c].deflt
  {
    FieldIs(t, c);
    FieldIsFirst(t, c);
    var x, n := Field(t, c), |record|;
    if x < n { assert Layout(t)[..n][x] == c; }
    if c in Layout(t)[..n] {
      var k :| 0 <= k < n && Layout(t)[k] == c;
      assert x <= k;
    }
  }

  lemma FieldIsFirst(t: Table, c: nat)
    requires t.Valid() && c < |t.cols| && !t.cols[c].isVirtual
    ensures 0 <= Field(t, c) <= |Layout(t)|
    ensures forall k :: 0 <= k < Field(t, c) ==> Layout(t)[k] != c
  {
    FieldIs(t, c);
    if !t.withoutRowid { PlaceInLayout(t, c); }
    forall k | 0 <= k < Field(t, c) ensures Layout(t)[k] != c {
      assert Layout(t)[..Field(t, c)][k] == Layout(t)[k];
    }
  }

  // ---- The same positions in the reduced table ----

  /** `u` is the table without column `iCol`, described column by column. */
  ghost predicate IsReduced(t: Table, iCol: nat, u: Table)
    requires iCol < |t.cols|
  {
    && |u.cols| == |t.cols| - 1 && |u.key| == |t.key| && u.withoutRowid == t.withoutRowid
    && (forall k :: 0 <= k < |t.key| ==> u.key[k] == Renumber(t.key[k], iCol))
    && (forall c :: 0 <= c < |t.cols| && c != iCol ==> u.cols[Renumber(c, iCol)] == t.cols[c])
    && u.iPKey == if t.iPKey > iCol then t.iPKey - 1 else t.iPKey
  }

  lemma ReducedIs(t: Table, iCol: nat)
    requires iCol < |t.cols|
    ensures IsReduced(t, iCol, Reduced(t, iCol))
  {
  }

  lemma ReducedKey(t: Table, iCol: nat, u: Table, c: nat)
    requires iCol < |t.cols| && iCol !in t.key && c != iCol && IsReduced(t, iCol, u)
    ensures Renumber(c, iCol) in u.key <==> c in t.key
  {
    if c in t.key {
      var k :| 0 <= k < |t.key| && t.key[k] == c;
      assert u.key[k] == Renumber(c, iCol);
    }
    if Renumber(c, iCol) in u.key {
      var k :| 0 <= k < |u.key| && u.key[k] == Renumber(c, iCol);
      assert t.key[k] != iCol && t.key[k] == c;
    }
  }

  lemma ReducedKeyIsValid(t: Table, iCol: nat, u: Table)
    requires MayDrop(t, iCol) && IsReduced(t, iCol, u)
    ensures forall k :: 0 <= k < |u.key| ==> u.key[k] < |u.cols| && !u.cols[u.key[k]].isVirtual
    ensures forall j, k :: 0 <= j < k < |u.key| ==> u.key[j] != u.key[k]
  {
    forall k | 0 <= k < |u.key| ensures u.key[k] < |u.cols| && !u.cols[u.key[k]].isVirtual {
      assert t.key[k] != iCol && u.cols[Renumber(t.key[k], iCol)] == t.cols[t.key[k]];
    }
    forall j, k | 0 <= j < k < |u.key| ensures u.key[j] != u.key[k] {
      assert t.key[j] != iCol && t.key[k] != iCol && t.key[j] != t.key[k];
    }
  }

  lemma ReducedIsValid(t: Table, iCol: nat, u: Table)
    requires MayDrop(t, iCol) && IsReduced(t, iCol, u)
    ensures u.Valid()
  {
    ReducedKeyIsValid(t, iCol, u);
    if t.iPKey != -1 { assert u.cols[Renumber(t.iPKey, iCol)] == t.cols[t.iPKey]; }
  }

  /** Dropping a column leaves as many fields before each other column, less its own if it has
      one. */
  lemma {:induction false} ReducedRest(t: Table, iCol: nat, u: Table, c: nat)
    requires MayDrop(t, iCol) && IsReduced(t, iCol, u) && c <= |t.cols|
    ensures c <= iCol ==> c <= |u.cols| && |Rest(u, c)| == |Rest(t, c)|
    ensures c > iCol ==> |Rest(u, c - 1)| == |Rest(t, c)| - if t.cols[iCol].isVirtual then 0 else 1
  {
    if c > 0 {
      ReducedRest(t, iCol, u, c - 1);
      if c - 1 != iCol {
        ReducedKey(t, iCol, u, c - 1);
        assert u.cols[Renumber(c - 1, iCol)] == t.cols[c - 1];
      }
    }
  }

  /** The register that the source computes for a column, counted from the first field: the
      position in the old record, one less behind the dropped column.  It is the position of
      the column in the reduced table, and the number of fields filled before it. */
  lemma NewField(t: Table, iCol: nat, u: Table, c: nat)
    requires CanDrop(t, iCol) && IsReduced(t, iCol, u)
    requires c < |t.cols| && c != iCol && !t.cols[c].isVirtual
    ensures Field(u, Renumber(c, iCol)) == RegOut(t, iCol, c)
    ensures c !in t.key ==> RegOut(t, iCol, c) == Count(t, iCol, c)
  {
    FieldIs(t, c);
    FieldIs(t, iCol);
    ReducedKey(t, iCol, u, c);
    ReducedIsValid(t, iCol, u);
    assert u.cols[Renumber(c, iCol)] == t.cols[c];
    FieldIs(u, Renumber(c, iCol));
    if c in t.key {
      var k :| 0 <= k < |t.key| && t.key[k] == c;
      assert u.key[k] == Renumber(c, iCol);
    } else {
      ReducedRest(t, iCol, u, c);
      if c > iCol { RestGrows(t, iCol, c); } else { RestGrows(t, c, iCol); }
    }
  }

  // ---- Rewriting a record ----

  /** `regOut - (reg + 1)`: the field for column `c`. */
  function RegOut(t: Table, iCol: nat, c: nat): int
    requires iCol < |t.cols| && c < |t.cols|
  {
    Field(t, c) - if Field(t, c) > Field(t, iCol) then 1 else 0
  }

  /** How many fields come before those of the columns from `i` on. */
  function Count(t: Table, iCol: nat, i: nat): int
    requires i <= |t.cols|
  {
    |t.key| + |Rest(t, i)| - if i > iCol then 1 else 0
  }

  /** What the rewritten record holds for column `c` of the old table. */
  function Stored(t: Table, rowid: Value, record: seq<Value>, c: nat): Value
    requires c < |t.cols|
  {
    if c == t.iPKey then Null else Read(t, rowid, record, c)
  }

  /** The field of column `c` in `fields` holds what it has to. */
  ghost predicate Holds(t: Table, iCol: nat, rowid: Value, record: seq<Value>, c: nat, fields: seq<Value>)
    requires iCol < |t.cols| && c < |t.cols|
  {
    0 <= RegOut(t, iCol, c) < |fields| && fields[RegOut(t, iCol, c)] == Stored(t, rowid, record, c)
  }

  /** So do those of all columns before `i`, and of the key columns. */
  ghost predicate Filled(t: Table, iCol: nat, rowid: Value, record: seq<Value>, i: nat, fields: seq<Value>)
    requires iCol < |t.cols| && i <= |t.cols|
  {
    forall c {:trigger Holds(t, iCol, rowid, record, c, fields)} ::
      0 <= c < |t.cols| && c != iCol && !t.cols[c].isVirtual && (c < i || c in t.key) ==>
        Holds(t, iCol, rowid, record, c, fields)
  }

  /** Filling the next field keeps the ones before it. */
  lemma FillsOneMore(t: Table, iCol: nat, rowid: Value, record: seq<Value>, i: nat, fields: seq<Value>, now: seq<Value>)
    requires CanDrop(t, iCol) && i < |t.cols| && Filled(t, iCol, rowid, record, i, fields)
    requires |fields| == Count(t, iCol, i)
    requires if i != iCol && InRest(t, i) then now == fields + [Stored(t, rowid, record, i)] else now == fields
    ensures Filled(t, iCol, rowid, record, i + 1, now) && |now| == Count(t, iCol, i + 1)
  {
    ReducedIs(t, iCol);
    forall c | 0 <= c < |t.cols| && c != iCol && !t.cols[c].isVirtual && (c < i + 1 || c in t.key)
      ensures Holds(t, iCol, rowid, record, c, now)
    {
      if c < i || c in t.key {
        assert Holds(t, iCol, rowid, record, c, fields);
      } else {
        NewField(t, iCol, Reduced(t, iCol), i);
      }
    }
  }

  lemma KeyIsFirst(t: Table, iCol: nat, rowid: Value, record: seq<Value>)
    requires CanDrop(t, iCol) && |t.key| <= |record|
    ensures Filled(t, iCol, rowid, record, 0, record[..|t.key|]) && |t.key| == Count(t, iCol, 0)
  {
    forall c | 0 <= c < |t.cols| && c in t.key ensures Holds(t, iCol, rowid, record, c, record[..|t.key|]) {
      var k :| 0 <= k < |t.key| && t.key[k] == c;
      FieldIs(t, c);
      FieldIs(t, iCol);
    }
  }

  /** The fields of a whole record are those of the columns of the reduced table. */
  lemma FilledReadsBack(t: Table, iCol: nat, u: Table, rowid: Value, record: seq<Value>, fields: seq<Value>,
                        now: seq<Value>)
    requires CanDrop(t, iCol) && IsReduced(t, iCol, u)
    requires Filled(t, iCol, rowid, record, |t.cols|, fields) && fields <= now
    ensures forall c :: 0 <= c < |t.cols| && c != iCol && !t.cols[c].isVirtual ==>
      Read(u, rowid, now, Renumber(c, iCol)) == Read(t, rowid, record, c)
  {
    forall c | 0 <= c < |t.cols| && c != iCol && !t.cols[c].isVirtual
      ensures Read(u, rowid, now, Renumber(c, iCol)) == Read(t, rowid, record, c)
    {
      NewField(t, iCol, u, c);
      assert Holds(t, iCol, rowid, record, c, fields);
    }
  }

  lemma AllFields(t: Table, iCol: nat, u: Table)
    requires CanDrop(t, iCol) && IsReduced(t, iCol, u)
    ensures |Layout(u)| == Count(t, iCol, |t.cols|)
  {
    ReducedRest(t, iCol, u, |t.cols|);
  }

  /** The body of the loop over the columns: column `i` goes to the register behind those that
      are filled, if it goes anywhere. */
  method FillField(t: Table, iCol: nat, rowid: Value, record: seq<Value>, i: nat, reg: array<Value>, n: nat)
    returns (nField: nat)
    requires CanDrop(t, iCol) && i < |t.cols|
    requires n == Count(t, iCol, i) <= reg.Length && Filled(t, iCol, rowid, record, i, reg[..n])
    requires Count(t, iCol, |t.cols|) <= reg.Length
    modifies reg
    ensures nField == Count(t, iCol, i + 1) <= reg.Length
    ensures Filled(t, iCol, rowid, record, i + 1, reg[..nField])
    ensures n <= nField <= n + 1 && reg[..n] == old(reg[..n])
  {
    ghost var fields := reg[..n];
    nField := n;
    if i != iCol && !t.cols[i].isVirtual {
      var iPos, iColPos := Field(t, i), Field(t, iCol);
      KeyFields(t, i);
      if !t.withoutRowid || iPos >= |t.key| {
        assert i !in t.key;
        assert RegOut(t, iCol, i) == n by {
          ReducedIs(t, iCol);
          NewField(t, iCol, Reduced(t, iCol), i);
        }
        CountGrows(t, iCol, i);
        var regOut := if t.withoutRowid then iPos - (if iPos > iColPos then 1 else 0) else nField;
        reg[regOut] := if i == t.iPKey then Null else Read(t, rowid, record, i);
        nField := nField + 1;
      }
    }
    FillsOneMore(t, iCol, rowid, record, i, fields, reg[..nField]);
  }

  /** The registers of one record, filled from the first on, one after the other. */
  method FillFields(t: Table, iCol: nat, rowid: Value, record: seq<Value>, reg: array<Value>) returns (nField: nat)
    requires CanDrop(t, iCol) && |t.key| <= |record|
    requires Count(t, iCol, |t.cols|) <= reg.Length && |t.key| <= reg.Length
    modifies reg
    ensures nField == Count(t, iCol, |t.cols|) && Filled(t, iCol, rowid, record, |t.cols|, reg[..nField])
  {
    for i := 0 to |t.key|
      invariant reg[..i] == record[..i]
    {
      reg[i] := record[i];
    }
    nField := |t.key|;
    KeyIsFirst(t, iCol, rowid, record);
    for i := 0 to |t.cols|
      invariant nField == Count(t, iCol, i) <= reg.Length
      invariant Filled(t, iCol, rowid, record, i, reg[..nField])
    {
      nField := FillField(t, iCol, rowid, record, i, reg, nField);
    }
  }

  /** One turn of the loop that DROP COLUMN runs over the table: from the old row to the new
      record.  It has the fields of the reduced table, and reading any column through it gives
      the old value; when no field is left, it is one NULL. */
  method RewriteRecord(t: Table, iCol: nat, rowid: Value, record: seq<Value>) returns (newRecord: seq<Value>)
    requires CanDrop(t, iCol) && |t.key| <= |record|
    ensures var n := |Layout(Reduced(t, iCol))|;
      if n == 0 then newRecord == [Null] else |newRecord| == n
    ensures forall c :: 0 <= c < |t.cols| && c != iCol && !t.cols[c].isVirtual ==>
      Read(Reduced(t, iCol), rowid, newRecord, Renumber(c, iCol)) == Read(t, rowid, record, c)
    ensures 0 <= t.iPKey ==>
      var x := RegOut(t, iCol, t.iPKey);
      0 <= x < |newRecord| && newRecord[x] == Null
  {
    ghost var u := Reduced(t, iCol);
    ReducedIs(t, iCol);
    RegistersSuffice(t, iCol, u);
    AllFields(t, iCol, u);
    var reg := new Value[if t.withoutRowid then |Layout(t)| else |t.cols|](i => Null);
    var nField := FillFields(t, iCol, rowid, record, reg);
    ghost var fields := reg[..nField];
    if nField == 0 {
      reg[0] := Null;
      nField := 1;
    }
    newRecord := reg[..nField];
    FilledReadsBack(t, iCol, u, rowid, record, fields, newRecord);
    assert 0 <= t.iPKey ==> Holds(t, iCol, rowid, record, t.iPKey, fields);
  }

  lemma KeyFields(t: Table, c: nat)
    requires t.Valid() && c < |t.cols| && !t.cols[c].isVirtual
    ensures Field(t, c) < |t.key| <==> c in t.key
  {
    FieldIs(t, c);
  }

  lemma CountGrows(t: Table, iCol: nat, i: nat)
    requires CanDrop(t, iCol) && i < |t.cols| && i != iCol && InRest(t, i)
    ensures Count(t, iCol, i) < Count(t, iCol, |t.cols|)
  {
    RestGrows(t, i, |t.cols|);
    if i < iCol { RestGrows(t, i, iCol); RestGrows(t, iCol, |t.cols|); }
  }

  lemma RegistersSuffice(t: Table, iCol: nat, u: Table)
    requires CanDrop(t, iCol) && IsReduced(t, iCol, u)
    ensures Count(t, iCol, |t.cols|) < if t.withoutRowid then |Layout(t)| else |t.cols|
  {
  }

  // ---- A virtual column ----

  /** A column keeps its field when a virtual column is dropped. */
  lemma VirtualKeepsField(t: Table, iCol: nat, u: Table, c: nat)
    requires MayDrop(t, iCol) && t.cols[iCol].isVirtual && IsReduced(t, iCol, u)
    requires c < |t.cols| && !t.cols[c].isVirtual
    ensures Field(u, Renumber(c, iCol)) == Field(t, c)
  {
    FieldIs(t, c);
    ReducedKey(t, iCol, u, c);
    ReducedIsValid(t, iCol, u);
    assert u.cols[Renumber(c, iCol)] == t.cols[c];
    FieldIs(u, Renumber(c, iCol));
    if c in t.key {
      var k :| 0 <= k < |t.key| && t.key[k] == c;
      assert u.key[k] == Renumber(c, iCol);
    } else {
      ReducedRest(t, iCol, u, c);
    }
  }

  /** DROP COLUMN on a virtual column leaves the records as they are, and they read the same
      through the reduced table. */
  lemma VirtualDropKeepsRecords(t: Table, iCol: nat, rowid: Value, record: seq<Value>, c: nat)
    requires MayDrop(t, iCol) && t.cols[iCol].isVirtual
    requires c < |t.cols| && !t.cols[c].isVirtual
    ensures Read(Reduced(t, iCol), rowid, record, Renumber(c, iCol)) == Read(t, rowid, record, c)
  {
    ReducedIs(t, iCol);
    VirtualKeepsField(t, iCol, Reduced(t, iCol), c);
  }

  /** What `sqlite3AlterDropColumn` makes of one row, whatever the column: every column that is
      left and stored reads as before. */
  method DropFromRow(t: Table, iCol: nat, rowid: Value, record: seq<Value>) returns (newRecord: seq<Value>)
    requires MayDrop(t, iCol) && |t.key| <= |record|
    ensures t.cols[iCol].isVirtual ==> newRecord == record
    ensures forall c :: 0 <= c < |t.cols| && c != iCol && !t.cols[c].isVirtual ==>
      Read(Reduced(t, iCol), rowid, newRecord, Renumber(c, iCol)) == Read(t, rowid, record, c)
  {
    if !t.cols[iCol].isVirtual {
      newRecord := RewriteRecord(t, iCol, rowid, record);
    } else {
      newRecord := record;
      forall c | 0 <= c < |t.cols| && c != iCol && !t.cols[c].isVirtual
        ensures Read(Reduced(t, iCol), rowid, record, Renumber(c, iCol)) == Read(t, rowid, record, c)
      {
        VirtualDropKeepsRecords(t, iCol, rowid, record, c);
      }
    }
  }
}
