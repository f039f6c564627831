/**
 * The string operations the record layer relies on: Python's `str.strip()`,
 * `str.upper()`, `str.startswith`, `str.isdigit` and substring containment,
 * restricted to ASCII text.
 */
module Text {

  /** Python's whitespace among the ASCII characters: space, \t \n \v \f \r and \x1c-\x1f. */
  predicate IsSpace(c: char) {
    c == ' ' || ('\t' <= c <= '\r') || ('\U{1C}' <= c <= '\U{1F}')
  }

  predicate IsDigit(c: char) {
    '0' <= c <= '9'
  }

  predicate AllDigits(s: string) {
    forall i :: 0 <= i < |s| ==> IsDigit(s[i])
  }

  /** `s` with its leading whitespace removed. */
  function TrimStart(s: string): (r: string) {
    if s != [] && IsSpace(s[0]) then TrimStart(s[1..]) else s
  }

  /** `s` with its trailing whitespace removed. */
  function TrimEnd(s: string): (r: string) {
    if s != [] && IsSpace(s[|s| - 1]) then TrimEnd(s[..|s| - 1]) else s
  }

  /** Python's `s.strip()`. */
  function Trim(s: string): (r: string) {
    TrimEnd(TrimStart(s))
  }

  function UpperChar(c: char): (u: char) {
    if 'a' <= c <= 'z' then (c as int - 32) as char else c
  }

  /** Python's `s.upper()` on ASCII text. */
  function Upper(s: string): (r: string) {
    if s == [] then [] else [UpperChar(s[0])] + Upper(s[1..])
  }

  /** TrimStart removes exactly the leading whitespace: a suffix of `s` that does not start with a space. */
  lemma {:induction false} TrimStartShape(s: string)
    ensures |TrimStart(s)| <= |s| && TrimStart(s) == s[|s| - |TrimStart(s)|..]
    ensures forall i :: 0 <= i < |s| - |TrimStart(s)| ==> IsSpace(s[i])
    ensures TrimStart(s) == [] || !IsSpace(TrimStart(s)[0])
  {
    if s != [] && IsSpace(s[0]) {
      var rest := s[1..];
      TrimStartShape(rest);
      TrimStartStep(s);
    }
  }

  lemma TrimStartStep(s: string)
    requires s != [] && IsSpace(s[0])
    requires |TrimStart(s[1..])| <= |s[1..]| && TrimStart(s[1..]) == s[1..][|s[1..]| - |TrimStart(s[1..])|..]
    requires forall i :: 0 <= i < |s[1..]| - |TrimStart(s[1..])| ==> IsSpace(s[1..][i])
    ensures |TrimStart(s)| <= |s| && TrimStart(s) == s[|s| - |TrimStart(s)|..]
    ensures forall i :: 0 <= i < |s| - |TrimStart(s)| ==> IsSpace(s[i])
  {
    var rest := s[1..];
    var t := TrimStart(rest);
    assert TrimStart(s) == t;
    assert rest[|rest| - |t|..] == s[|s| - |t|..];
    forall i | 0 <= i < |s| - |t|
      ensures IsSpace(s[i])
    {
      if i > 0 {
        assert s[i] == rest[i - 1];
      }
    }
  }

  /** TrimEnd removes exactly the trailing whitespace: a prefix of `s` that does not end with a space. */
  lemma {:induction false} TrimEndShape(s: string)
    ensures |TrimEnd(s)| <= |s| && TrimEnd(s) == s[..|TrimEnd(s)|]
    ensures forall i :: |TrimEnd(s)| <= i < |s| ==> IsSpace(s[i])
    ensures TrimEnd(s) == [] || !IsSpace(TrimEnd(s)[|TrimEnd(s)| - 1])
  {
    if s != [] && IsSpace(s[|s| - 1]) {
      TrimEndShape(s[..|s| - 1]);
    }
  }

  /** Upper keeps the length and upper-cases each character where it stands. */
  lemma {:induction false} UpperAt(s: string)
    ensures |Upper(s)| == |s|
    ensures forall i :: 0 <= i < |s| ==> Upper(s)[i] == UpperChar(s[i])
  {
    if s != [] {
      UpperAt(s[1..]);
    }
  }

  /** The normalised room key, `s.strip().upper()`. */
  function Key(s: string): (k: string) {
    Upper(Trim(s))
  }

  /** Python's `s.startswith(p)`. */
  predicate StartsWith(s: string, p: string) {
    |p| <= |s| && s[..|p|] == p
  }

  /** `sub in s`: `sub` occurs somewhere in `s` as a contiguous block. */
  predicate Contains(s: string, sub: string)
    decreases |s|
  {
    StartsWith(s, sub) || (s != [] && Contains(s[1..], sub))
  }

  /** `sub` occurs in `s` starting at index `i`. */
  predicate OccursAt(s: string, sub: string, i: int) {
    0 <= i <= |s| - |sub| && s[i..i + |sub|] == sub
  }

  /** Contains agrees with the definition by position: some index at which `sub` starts. */
  lemma {:induction false} ContainsAt(s: string, sub: string)
    ensures Contains(s, sub) <==> exists i :: OccursAt(s, sub, i)
  {
    if s != [] {
      ContainsAt(s[1..], sub);
      if exists i :: OccursAt(s, sub, i) {
        var i :| OccursAt(s, sub, i);
        if i > 0 {
          assert OccursAt(s[1..], sub, i - 1);
        }
      }
      if exists j :: OccursAt(s[1..], sub, j) {
        var j :| OccursAt(s[1..], sub, j);
        assert s[1..][j..j + |sub|] == s[j + 1..j + 1 + |sub|];
        assert OccursAt(s, sub, j + 1);
      }
      if StartsWith(s, sub) {
        assert OccursAt(s, sub, 0);
      }
    } else {
      if exists i :: OccursAt(s, sub, i) {
        var i :| OccursAt(s, sub, i);
        assert |sub| == 0 && s[..0] == sub;
      }
      if sub == [] {
        assert OccursAt(s, sub, 0);
      }
    }
  }

  /** Stripping twice strips nothing more. */
  lemma TrimIdempotent(s: string)
    ensures Trim(Trim(s)) == Trim(s)
  {
    TrimEnds(s);
    var t := Trim(s);
    TrimStartNoop(t);
    TrimEndNoop(t);
  }

  lemma TrimStartNoop(t: string)
    requires t == [] || !IsSpace(t[0])
    ensures TrimStart(t) == t
  {
  }

  lemma TrimEndNoop(t: string)
    requires t == [] || !IsSpace(t[|t| - 1])
    ensures TrimEnd(t) == t
  {
  }

  /** The result of Trim starts and ends with a non-space character. */
  lemma TrimEnds(s: string)
    ensures Trim(s) == [] || (!IsSpace(Trim(s)[0]) && !IsSpace(Trim(s)[|Trim(s)| - 1]))
  {
    var a := TrimStart(s);
    TrimStartShape(s);
    TrimEndShape(a);
    var t := TrimEnd(a);
    if t != [] {
      assert t[0] == a[0];
    }
  }

  lemma {:induction false} UpperIdempotent(s: string)
    ensures Upper(Upper(s)) == Upper(s)
  {
    if s != [] {
      UpperIdempotent(s[1..]);
    }
  }

  /** Upper-casing never turns a letter into whitespace, so it commutes with stripping. */
  lemma {:induction false} TrimStartUpper(s: string)
    ensures TrimStart(Upper(s)) == Upper(TrimStart(s))
  {
    if s != [] {
      assert Upper(s)[1..] == Upper(s[1..]);
      if IsSpace(s[0]) {
        TrimStartUpper(s[1..]);
      }
    }
  }

  lemma {:induction false} TrimEndUpper(s: string)
    ensures TrimEnd(Upper(s)) == Upper(TrimEnd(s))
  {
    if s != [] {
      var n := |s| - 1;
      UpperAt(s);
      UpperAt(s[..n]);
      assert Upper(s)[..n] == Upper(s[..n]);
      assert Upper(s)[n] == UpperChar(s[n]);
      if IsSpace(s[n]) {
        TrimEndUpper(s[..n]);
      }
    }
  }

  lemma TrimUpper(s: string)
    ensures Trim(Upper(s)) == Upper(Trim(s))
  {
    TrimStartUpper(s);
    TrimEndUpper(TrimStart(s));
  }

  /** Normalising a room key twice gives the same key as normalising it once. */
  lemma KeyIdempotent(s: string)
    ensures Key(Key(s)) == Key(s)
  {
    TrimUpper(Trim(s));
    TrimIdempotent(s);
    UpperIdempotent(Trim(s));
  }

  /** A normalised key has no surrounding whitespace and no lower-case ASCII letter. */
  lemma KeyShape(s: string)
    ensures Key(s) == [] || (!IsSpace(Key(s)[0]) && !IsSpace(Key(s)[|Key(s)| - 1]))
    ensures forall i :: 0 <= i < |Key(s)| ==> !('a' <= Key(s)[i] <= 'z')
  {
    TrimEnds(s);
    UpperAt(Trim(s));
  }
}
