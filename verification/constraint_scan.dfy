/** The functions behind ADD CONSTRAINT, DROP CONSTRAINT and the two forms of ALTER COLUMN ..
    NOT NULL in alter.c, on the text of a CREATE TABLE statement. */
module ConstraintScan {
  import opened Options
  import opened SqlTokens
  import SqlQuoting

  /** `skipCreateTable`: past the first "(", or None for SQLITE_CORRUPT. */
  function BodyStart(z: seq<Tok>, i: nat): (r: Option<nat>)
    ensures r.Some? ==> i < r.value <= |z|
    decreases |z| - i
  {
    var t := KindAt(z, i);
    if t.ILLEGAL? then None else if t.LP? then Some(i + 1) else BodyStart(z, i + 1)
  }

  method SkipCreateTable(z: seq<Tok>) returns (r: Option<nat>)
    ensures r == BodyStart(z, 0)
  {
    var iOff := 0;
    while true
      invariant iOff <= |z| && BodyStart(z, iOff) == BodyStart(z, 0)
      decreases |z| - iOff
    {
      var t := KindAt(z, iOff);
      if t.LP? { return Some(iOff + 1); }
      if t.ILLEGAL? { return None; }
      iOff := iOff + 1;
    }
    return None;
  }

  /** The tokens that end a constraint. */
  predicate Stops(t: Kind)
  {
    || t.CONSTRAINT? || t.PRIMARY? || t.NOT? || t.UNIQUE? || t.CHECK? || t.DEFAULT?
    || t.COLLATE? || t.REFERENCES? || t.FOREIGN? || t.RP? || t.COMMA? || t.ILLEGAL?
    || t.AS? || t.GENERATED?
  }

  /** `getConstraint`: the end of the constraint whose second token is at `i`. */
  function ConstraintEnd(z: seq<Tok>, i: nat): (e: nat)
    ensures i <= e && (i <= |z| ==> e <= |z|)
    decreases |z| - i
  {
    if Stops(TokenKind(z, i)) then i else ConstraintEnd(z, TokenEnd(z, i))
  }

  method GetConstraint(z: seq<Tok>, i: nat) returns (iOff: nat)
    requires i <= |z|
    ensures iOff == ConstraintEnd(z, i)
  {
    iOff := i;
    while true
      invariant iOff <= |z| && ConstraintEnd(z, iOff) == ConstraintEnd(z, i)
      decreases |z| - iOff
    {
      var n, t := GetConstraintToken(z, iOff);
      if Stops(t) { break; }
      iOff := n;
    }
  }

  // ---- Names ----

  function TextOf(z: seq<Tok>, i: nat, j: nat): string
    requires j <= |z|
    decreases j - i
  {
    if i >= j then "" else z[i].text + TextOf(z, i + 1, j)
  }

  function Lower(c: char): char { if 'A' <= c <= 'Z' then c - 'A' + 'a' else c }

  /** `sqlite3_stricmp(a, b) == 0`. */
  predicate SameName(a: string, b: string)
  {
    |a| == |b| && forall i :: 0 <= i < |a| ==> Lower(a[i]) == Lower(b[i])
  }

  /** `quotedCompare`: whether a possibly quoted text spells `name`. */
  function SpelledAs(name: string): string -> bool
  {
    text => SameName(SqlQuoting.Dequoted(text), name)
  }

  /** Whether the token at `i`, which ends at `j`, is the name looked for. */
  predicate Spells(z: seq<Tok>, i: nat, j: nat, spells: string -> bool)
    requires j <= |z|
  {
    !TokenKind(z, i).ILLEGAL? && spells(TextOf(z, i, j))
  }

  /** The position of the name in the constraint whose CONSTRAINT token is at `i`. */
  function NameStart(z: seq<Tok>, i: nat): nat { SkipSpace(z, TokenEnd(z, i)) }
  function NameEnd(z: seq<Tok>, i: nat): nat { TokenEnd(z, NameStart(z, i)) }

  predicate Names(z: seq<Tok>, i: nat, spells: string -> bool)
    requires i <= |z|
  {
    Spells(z, NameStart(z, i), NameEnd(z, i), spells)
  }

  // ---- DROP CONSTRAINT and DROP NOT NULL ----

  datatype Target = Named(spells: string -> bool) | NotNullOf(iCol: int)

  /** What the search over the column and constraint definitions comes to. */
  datatype Search = Found(start: nat, end: nat) | Absent | MayNot

  /** The kinds after a constraint name that are not part of the constraint. */
  predicate EndsAtName(t: Kind)
  {
    || t.CONSTRAINT? || t.DEFAULT? || t.COLLATE? || t.COMMA? || t.RP?
    || t.GENERATED? || t.AS?
  }

  /** The end and the type of the constraint whose CONSTRAINT token is at `i`. */
  function NamedEnd(z: seq<Tok>, i: nat): (e: nat)
    requires i <= |z|
    ensures i <= e <= |z|
    ensures i < |z| ==> i < e
  {
    var b := NameEnd(z, i);
    if EndsAtName(TokenKind(z, b)) then b else ConstraintEnd(z, TokenEnd(z, b))
  }

  function NamedType(z: seq<Tok>, i: nat): Kind
  {
    var t := TokenKind(z, NameEnd(z, i));
    if EndsAtName(t) then CHECK else t
  }

  /** The search from position `i` inside definition number `ii`. */
  function Scan(z: seq<Tok>, i: nat, ii: nat, target: Target): Search
    requires i <= |z|
    decreases |z| - i
  {
    var t := TokenKind(z, i);
    var e := TokenEnd(z, i);
    if t.CONSTRAINT? && (target.Named? || target.iCol == ii) then
      if (target.Named? && Names(z, i, target.spells)) || (target.NotNullOf? && NamedType(z, i).NOT?) then
        if NamedType(z, i).NOT? || NamedType(z, i).CHECK? then Found(i, NamedEnd(z, i)) else MayNot
      else Scan(z, NamedEnd(z, i), ii, target)
    else if t.NOT? && target.NotNullOf? && target.iCol == ii then Found(i, ConstraintEnd(z, e))
    else if t.RP? || t.ILLEGAL? then Absent
    else Scan(z, e, if t.COMMA? then ii + 1 else ii, target)
  }

  datatype DropResult = Corrupt | NoSuch | MayNotDrop | Text(z: seq<Tok>)

  const SPACE_TOK := Tok(SPACE, " ")

  /** The statement without its tokens from `start` to `end`, the white space after them, and
      the comma before them when they were all of a definition. */
  function Cut(z: seq<Tok>, start: nat, end: nat): seq<Tok>
    requires start <= end <= |z|
  {
    var e := SkipSpace(z, end);
    if KindAt(z, e).RP? || KindAt(z, e).COMMA? then
      z[..if start > 0 && z[start - 1].kind.COMMA? then start - 1 else start] + z[e..]
    else z[..start] + [SPACE_TOK] + z[e..]
  }

  /** What `dropConstraintFunc` returns. */
  function Dropped(z: seq<Tok>, target: Target): DropResult
  {
    match BodyStart(z, 0)
    case None => Corrupt
    case Some(body) =>
      match Scan(z, body, 0, target)
      case MayNot => MayNotDrop
      case Absent => if target.Named? then NoSuch else Text(z)
      case Found(start, end) => if start <= end <= |z| then Text(Cut(z, start, end)) else Corrupt
  }

  lemma {:induction false} ScanBounds(z: seq<Tok>, i: nat, ii: nat, target: Target)
    requires i <= |z|
    ensures var r := Scan(z, i, ii, target);
      r.Found? ==> i <= r.start < r.end <= |z|
    decreases |z| - i
  {
    var t := TokenKind(z, i);
    var e := TokenEnd(z, i);
    if t.CONSTRAINT? {
      ScanBounds(z, NamedEnd(z, i), ii, target);
      ScanBounds(z, e, ii, target);
    } else if !t.ILLEGAL? {
      ScanBounds(z, e, if t.COMMA? then ii + 1 else ii, target);
    }
  }

  /** The part of the search of `dropConstraintFunc` that reads a constraint whose CONSTRAINT
      token starts at `i`: where it ends, its type, and whether it has the name looked for. */
  method ReadConstraint(z: seq<Tok>, i: nat, target: Target) returns (iOff: nat, t: Kind, cmp: bool)
    requires i <= |z|
    ensures iOff == NamedEnd(z, i) && t == NamedType(z, i)
    ensures cmp <==> target.Named? && Names(z, i, target.spells)
  {
    iOff, t := GetConstraintToken(z, i);
    iOff := GetWhitespace(z, iOff);
    cmp := false;
    var nTok;
    nTok, t := GetConstraintToken(z, iOff);
    if target.Named? {
      cmp := !t.ILLEGAL? && target.spells(TextOf(z, iOff, nTok));
    }
    iOff := nTok;
    nTok, t := GetConstraintToken(z, iOff);
    if EndsAtName(t) {
      t := CHECK;
    } else {
      iOff := GetConstraint(z, nTok);
    }
  }

  /** The search loops of `dropConstraintFunc`, from the start of the body: `iEnd` is negative
      when the search fails, and zero when the constraint is one that may not be dropped. */
  method SearchToDrop(z: seq<Tok>, body: nat, target: Target) returns (iStart: nat, iEnd: int)
    requires 0 < body <= |z|
    ensures Scan(z, body, 0, target)
      == if iEnd > 0 then Found(iStart, iEnd) else if iEnd < 0 then Absent else MayNot
  {
    var iOff, ii := body, 0;
    iStart, iEnd := 0, 0;
    while iEnd == 0
      invariant 0 < iOff <= |z|
      invariant Scan(z, body, 0, target)
        == if iEnd > 0 then Found(iStart, iEnd) else if iEnd < 0 then Absent else Scan(z, iOff, ii, target)
      decreases if iEnd == 0 then 1 else 0, |z| - iOff
    {
      while true
        invariant 0 < iOff <= |z| && iEnd == 0
        invariant Scan(z, body, 0, target) == Scan(z, iOff, ii, target)
        decreases |z| - iOff
      {
        iStart := iOff;
        var t;
        iOff, t := GetConstraintToken(z, iOff);
        if t.CONSTRAINT? && (target.Named? || target.iCol == ii) {
          var cmp;
          iOff, t, cmp := ReadConstraint(z, iStart, target);
          if cmp || (target.NotNullOf? && t.NOT?) {
            if !t.NOT? && !t.CHECK? { return; }
            iEnd := iOff;
            break;
          }
        } else if t.NOT? && target.NotNullOf? && target.iCol == ii {
          iEnd := GetConstraint(z, iOff);
          break;
        } else if t.RP? || t.ILLEGAL? {
          iEnd := -1;
          break;
        } else if t.COMMA? {
          ii := ii + 1;
          break;
        }
      }
    }
  }

  /** The last part of `dropConstraintFunc`: the text around the constraint is put together.
      The pieces meet at a separator, so each keeps its own tokens. */
  method CutOut(z: seq<Tok>, start: nat, iEnd: nat) returns (zNew: seq<Tok>)
    requires 0 < start <= iEnd <= |z|
    ensures zNew == Cut(z, start, iEnd)
  {
    var iStart := start;
    var end := GetWhitespace(z, iEnd);
    var t := KindAt(z, end);
    var space := [SPACE_TOK];
    if t.RP? || t.COMMA? {
      space := [];
      if z[iStart - 1].kind.COMMA? { iStart := iStart - 1; }
    }
    zNew := z[..iStart] + space + z[end..];
  }

  /** `dropConstraintFunc`. */
  method DropConstraint(z: seq<Tok>, target: Target) returns (r: DropResult)
    ensures r == Dropped(z, target)
  {
    var body := SkipCreateTable(z);
    if body == None { return Corrupt; }
    ScanBounds(z, body.value, 0, target);
    var iStart, iEnd := SearchToDrop(z, body.value, target);
    if iEnd > 0 {
      var zNew := CutOut(z, iStart, iEnd);
      return Text(zNew);
    }
    return if iEnd == 0 then MayNotDrop else if target.Named? then NoSuch else Text(z);
  }

  // ---- ADD CONSTRAINT and SET NOT NULL ----

  /** The end of the definition whose unread part starts at `i`: before the white space in
      front of the comma or parenthesis after it.  None for SQLITE_CORRUPT. */
  function DefinitionEnd(z: seq<Tok>, i: nat): (r: Option<nat>)
    ensures r.Some? && i <= |z| ==> i <= r.value <= |z|
    decreases |z| - i
  {
    var t := TokenKind(z, i);
    if t.COMMA? || t.RP? then Some(i)
    else if t.ILLEGAL? then None
    else DefinitionEnd(z, TokenEnd(z, i))
  }

  /** The end of definition number `iCol` counted from `i`, or of the last one. */
  function AddAt(z: seq<Tok>, i: nat, iCol: int): (r: Option<nat>)
    requires i <= |z|
    ensures r.Some? ==> i <= r.value <= |z|
    decreases |z| - i
  {
    match DefinitionEnd(z, TokenEnd(z, i))
    case None => None
    case Some(p) =>
      if (if iCol < 0 then TokenKind(z, p).RP? else iCol == 0) then Some(p)
      else AddAt(z, p, if iCol < 0 then iCol else iCol - 1)
  }

  function Inserted(z: seq<Tok>, cons: seq<Tok>, iCol: int, p: nat): seq<Tok>
    requires p <= |z|
  {
    var q := SkipSpace(z, p);
    z[..q] + (if iCol < 0 then [Tok(COMMA, ","), SPACE_TOK] else [SPACE_TOK]) + cons + z[q..]
  }

  /** What `addConstraintFunc` returns: the new text, or None for SQLITE_CORRUPT. */
  function Added(z: seq<Tok>, cons: seq<Tok>, iCol: int): Option<seq<Tok>>
  {
    match BodyStart(z, 0)
    case None => None
    case Some(body) =>
      match AddAt(z, body, iCol)
      case None => None
      case Some(p) => Some(Inserted(z, cons, iCol, p))
  }

  /** The inner loop of `addConstraintFunc`. */
  method SkipDefinition(z: seq<Tok>, i: nat) returns (r: Option<nat>, t: Kind)
    requires i <= |z|
    ensures r == DefinitionEnd(z, i)
    ensures r.Some? ==> t == TokenKind(z, r.value)
  {
    var iOff := i;
    while true
      invariant iOff <= |z| && DefinitionEnd(z, iOff) == DefinitionEnd(z, i)
      decreases |z| - iOff
    {
      var nTok;
      nTok, t := GetConstraintToken(z, iOff);
      if t.COMMA? || t.RP? { return Some(iOff), t; }
      if t.ILLEGAL? { return None, t; }
      iOff := nTok;
    }
    return None, t;
  }

  /** The loops of `addConstraintFunc`. */
  method SearchToAdd(z: seq<Tok>, body: nat, iCol: int) returns (r: Option<nat>)
    requires body <= |z|
    ensures r == AddAt(z, body, iCol)
  {
    var iOff, ii, t := body, 0, LP;
    while ii <= iCol || (iCol < 0 && !t.RP?)
      invariant iOff <= |z| && 0 <= ii && (0 <= iCol ==> ii <= iCol + 1)
      invariant AddAt(z, body, iCol) == if ii <= iCol || (iCol < 0 && !t.RP?)
        then AddAt(z, iOff, if iCol < 0 then iCol else iCol - ii) else Some(iOff)
      decreases |z| - iOff, if ii <= iCol || (iCol < 0 && !t.RP?) then 1 else 0
    {
      iOff, t := GetConstraintToken(z, iOff);
      var end;
      end, t := SkipDefinition(z, iOff);
      if end == None { return None; }
      iOff := end.value;
      ii := ii + 1;
    }
    return Some(iOff);
  }

  /** `addConstraintFunc`. */
  method AddConstraint(z: seq<Tok>, cons: seq<Tok>, iCol: int) returns (r: Option<seq<Tok>>)
    ensures r == Added(z, cons, iCol)
  {
    var body := SkipCreateTable(z);
    if body == None { return None; }
    var at := SearchToAdd(z, body.value, iCol);
    if at == None { return None; }
    var iOff := GetWhitespace(z, at.value);
    if iCol < 0 {
      return Some(z[..iOff] + [Tok(COMMA, ","), SPACE_TOK] + cons + z[iOff..]);
    } else {
      return Some(z[..iOff] + [SPACE_TOK] + cons + z[iOff..]);
    }
  }

  // ---- The duplicate check of ADD CONSTRAINT ----

  /** Whether a CONSTRAINT token outside parentheses, from `i` on, is followed by the name. */
  predicate Finds(z: seq<Tok>, i: nat, spells: string -> bool)
    requires i <= |z|
    decreases |z| - i
  {
    var t := TokenKind(z, i);
    if t.ILLEGAL? then false
    else if t.CONSTRAINT? then Names(z, i, spells) || Finds(z, NameStart(z, i), spells)
    else Finds(z, TokenEnd(z, i), spells)
  }

  /** Where `findConstraintFunc` starts to look: past the first "(", or past the first ILLEGAL
      token when that comes earlier. */
  function FindStart(z: seq<Tok>, i: nat): (r: nat)
    ensures i <= |z| ==> i <= r <= |z|
    decreases |z| - i
  {
    var t := KindAt(z, i);
    if t.LP? || t.ILLEGAL? then After(z, i) else FindStart(z, i + 1)
  }

  /** `findConstraintFunc`. */
  method FindConstraint(z: seq<Tok>, spells: string -> bool) returns (found: bool)
    ensures found == Finds(z, FindStart(z, 0), spells)
  {
    var iOff := 0;
    var t := SPACE;
    while !t.LP? && !t.ILLEGAL?
      invariant iOff <= |z|
      invariant FindStart(z, 0) == if t.LP? || t.ILLEGAL? then iOff else FindStart(z, iOff)
      decreases |z| - iOff, if t.LP? || t.ILLEGAL? then 0 else 1
    {
      t := KindAt(z, iOff);
      iOff := After(z, iOff);
    }
    found := SearchNamed(z, iOff, spells);
  }

  /** The second loop of `findConstraintFunc`. */
  method SearchNamed(z: seq<Tok>, i: nat, spells: string -> bool) returns (found: bool)
    requires i <= |z|
    ensures found == Finds(z, i, spells)
  {
    var iOff := i;
    while true
      invariant iOff <= |z| && Finds(z, iOff, spells) == Finds(z, i, spells)
      decreases |z| - iOff
    {
      var t;
      iOff, t := GetConstraintToken(z, iOff);
      if t.CONSTRAINT? {
        iOff := GetWhitespace(z, iOff);
        var nTok;
        nTok, t := GetConstraintToken(z, iOff);
        if !t.ILLEGAL? && spells(TextOf(z, iOff, nTok)) {
          return true;
        }
      } else if t.ILLEGAL? {
        return false;
      }
    }
    return false;
  }
}
