/** The buffer of `renameEditSql`: one allocation, edited in place with memmove and memcpy. */
module RenameBuffer {
  import opened SqlQuoting
  import opened RenameEdit

  method MemMove(z: array<char>, dst: nat, src: nat, n: nat)
    requires dst + n <= z.Length && src + n <= z.Length
    modifies z
    ensures forall k :: dst <= k < dst + n ==> z[k] == old(z[k - dst + src])
    ensures forall k :: 0 <= k < dst || dst + n <= k < z.Length ==> z[k] == old(z[k])
  {
    forall k | dst <= k < dst + n {
      z[k] := z[k - dst + src];
    }
  }

  method MemCpy(z: array<char>, dst: nat, s: string)
    requires dst + |s| <= z.Length
    modifies z
    ensures forall k :: 0 <= k < |s| ==> s[k] == z[dst + k]
    ensures forall k :: 0 <= k < dst || dst + |s| <= k < z.Length ==> z[k] == old(z[k])
  {
    forall k | dst <= k < dst + |s| {
      z[k] := s[k - dst];
    }
  }

  /** The zero-terminated text at `base`, as the callers of `strlen` see it. */
  method ReadText(z: array<char>, base: nat, ghost s: string) returns (r: string)
    requires NoNul(s) && Holds(z, base, s)
    ensures r == s
  {
    var n := Strlen(z, base, s);
    r := z[base..base + n];
  }

  /** `sqlite3_snprintf(limit, &z[base], ..)` of a text: what does not fit is cut off.  The
      result is what can be read back from there. */
  method Snprintf(z: array<char>, base: nat, limit: nat, s: string) returns (shown: string)
    requires 1 <= limit && base + limit <= z.Length && NoNul(s)
    modifies z
    ensures shown == s[..if |s| < limit then |s| else limit - 1]
    ensures forall k :: 0 <= k < base ==> z[k] == old(z[k])
  {
    var n := if |s| < limit then |s| else limit - 1;
    MemCpy(z, base, s[..n]);
    z[base + n] := NUL;
    shown := ReadText(z, base, s[..n]);
  }

  /** The name behind a quoted token: copied to `base`, dequoted there and read back. */
  method CopyName(z: array<char>, base: nat, token: string) returns (name: string)
    requires NoNul(token) && OneToken(token, '"') && base + |token| < z.Length
    modifies z
    ensures name == Dequoted(token)
    ensures forall k :: 0 <= k < base ==> z[k] == old(z[k])
  {
    MemCpy(z, base, token);
    z[base + |token|] := NUL;
    Dequote(z, base, token);
    UndoubleKeepsNoNul(token, 1, '"');
    name := ReadText(z, base, Dequoted(token));
  }

  /** One turn of the loop of `renameEditSql`, after the replacement is known: the tail moves,
      the text is terminated again, and the replacement is copied in. */
  method Splice(z: array<char>, nOut: nat, off: nat, n: nat, zReplace: string, ghost text: string)
    returns (m: nat, ghost now: string)
    requires Holds(z, 0, text) && nOut == |text| && off + n <= nOut
    requires nOut + |zReplace| - n < z.Length
    modifies z
    ensures m == |now| == |text| + |zReplace| - n && Holds(z, 0, now)
    ensures forall k :: 0 <= k < off ==> now[k] == text[k]
    ensures Shown(zReplace, now, off)
    ensures forall k :: off + |zReplace| <= k < |now| ==> now[k] == text[k - |zReplace| + n]
  {
    m := nOut;
    if n != |zReplace| {
      MemMove(z, off + |zReplace|, off + n, nOut - (off + n));
      m := nOut + |zReplace| - n;
      z[m] := NUL;
    }
    MemCpy(z, off, zReplace);
    now := z[..m];
  }

  /** The replacement of a token in the second mode, built in the two scratch areas behind the
      first 2*nSql+1 bytes of the allocation.  It is never cut off. */
  method Requote(z: array<char>, sql: string, off: nat, n: nat) returns (zReplace: string)
    requires NoNul(sql) && IsToken(QuoteFix, sql, off, n)
    requires z.Length == 3 * (2 * |sql| + 1)
    modifies z
    ensures zReplace == Replacement(QuoteFix, sql, off, n)
    ensures forall k :: 0 <= k < 2 * |sql| + 1 ==> z[k] == old(z[k])
  {
    var zBuf1, zBuf2 := 2 * |sql| + 1, 4 * |sql| + 2;
    var name := CopyName(z, zBuf1, sql[off..off + n]);
    ReplacementFits(QuoteFix, sql, off, n);
    zReplace := Snprintf(z, zBuf2, 2 * |sql|,
      Quoted(name, '\'') + (if ByteAt(sql, off + n) == '\'' then " " else ""));
  }
}
