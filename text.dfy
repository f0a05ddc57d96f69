/** The three JavaScript string operations the extraction callback relies on:
    `String.prototype.trim`, `String.prototype.includes` and `slice(0, n)`. */
module JsText {

  /** WhiteSpace and LineTerminator code points of ECMAScript, the
      characters `trim` removes from both ends. */
  predicate IsSpace(c: char) {
    || c == '\t' || c == '\n' || c == '\U{000B}' || c == '\U{000C}' || c == '\r'
    || c == ' ' || c == '\U{00A0}' || c == '\U{1680}'
    || ('\U{2000}' <= c <= '\U{200A}')
    || c == '\U{2028}' || c == '\U{2029}' || c == '\U{202F}' || c == '\U{205F}'
    || c == '\U{3000}' || c == '\U{FEFF}'
  }

  predicate AllSpace(s: string) {
    forall i :: 0 <= i < |s| ==> IsSpace(s[i])
  }

  /** Neither end of `s` is white space. */
  predicate Trimmed(s: string) {
    s == [] || (!IsSpace(s[0]) && !IsSpace(s[|s| - 1]))
  }

  /** `s` without its leading white space: a suffix of `s` that does not
      start with white space. */
  function TrimStart(s: string): (r: string)
    ensures |r| <= |s| && r == s[|s| - |r|..]
    ensures r == [] || !IsSpace(r[0])
  {
    if s != [] && IsSpace(s[0]) then TrimStart(s[1..]) else s
  }

  /** What `TrimStart` removes is white space. */
  lemma {:induction false} TrimStartRemovesSpace(s: string)
    ensures AllSpace(s[..|s| - |TrimStart(s)|])
    decreases |s|
  {
    if s != [] && IsSpace(s[0]) {
      var r := TrimStart(s[1..]);
      TrimStartRemovesSpace(s[1..]);
      assert s[1..][..|s| - 1 - |r|] == s[1..|s| - |r|];
    }
  }

  /** `s` without its trailing white space: a prefix of `s` that does not
      end with white space. */
  function TrimEnd(s: string): (r: string)
    ensures |r| <= |s| && r == s[..|r|]
    ensures r == [] || !IsSpace(r[|r| - 1])
  {
    if s != [] && IsSpace(s[|s| - 1]) then TrimEnd(s[..|s| - 1]) else s
  }

  /** What `TrimEnd` removes is white space. */
  lemma {:induction false} TrimEndRemovesSpace(s: string)
    ensures AllSpace(s[|TrimEnd(s)|..])
    decreases |s|
  {
    if s != [] && IsSpace(s[|s| - 1]) {
      var r := TrimEnd(s[..|s| - 1]);
      TrimEndRemovesSpace(s[..|s| - 1]);
      assert s[..|s| - 1][|r|..] == s[|r|..|s| - 1];
    }
  }

  /** `s.trim()`: no white space at either end, and no longer than `s`. */
  function Trim(s: string): (r: string)
    ensures Trimmed(r)
    ensures |r| <= |s|
  {
    TrimEnd(TrimStart(s))
  }

  /** `Trim(s)` is the infix of `s` left when the white space at both ends
      is cut away. */
  lemma TrimCut(s: string)
    ensures exists i :: Cut(s, i, Trim(s))
  {
    var m := TrimStart(s);
    var r := TrimEnd(m);
    assert r == Trim(s);
    TrimStartRemovesSpace(s);
    TrimEndRemovesSpace(m);
    assert Cut(s, |s| - |m|, r) by {
      assert s[|s| - |m|..][..|r|] == s[|s| - |m|..|s| - |m| + |r|];
      assert s[|s| - |m|..][|r|..] == s[|s| - |m| + |r|..];
    }
  }

  /** `r` is the infix of `s` that starts at `i`, and all of `s` outside it is
      white space. */
  predicate Cut(s: string, i: int, r: string) {
    0 <= i && i + |r| <= |s| && s[i..i + |r|] == r && AllSpace(s[..i]) && AllSpace(s[i + |r|..])
  }

  /** Trimming twice is trimming once. */
  lemma TrimIdempotent(s: string)
    ensures Trim(Trim(s)) == Trim(s)
  {
    var r := Trim(s);
    if r != [] {
      assert TrimStart(r) == r;
      assert TrimEnd(r) == r;
    }
  }

  /** `t` occurs in `s` at offset `i`. */
  predicate OccursAt(s: string, t: string, i: int) {
    0 <= i && i + |t| <= |s| && s[i..i + |t|] == t
  }

  /** `s.includes(t)`, scanning `s` from the left (the empty string occurs
      in every string). */
  function Includes(s: string, t: string): bool
    decreases |s|
  {
    if |s| < |t| then false
    else if s[..|t|] == t then true
    else Includes(s[1..], t)
  }

  /** `Includes` finds `t` exactly when `t` occurs in `s` at some offset. */
  lemma {:induction false} IncludesOccurs(s: string, t: string)
    ensures Includes(s, t) <==> exists i :: OccursAt(s, t, i)
    decreases |s|
  {
    if |s| < |t| {
      assert forall i :: !OccursAt(s, t, i);
    } else if s[..|t|] == t {
      assert OccursAt(s, t, 0);
    } else {
      IncludesOccurs(s[1..], t);
      ShiftOccurrence(s, t);
    }
  }

  /** An occurrence in `s[1..]` is an occurrence in `s` one place further on,
      and every occurrence in `s` past offset 0 arises that way. */
  lemma ShiftOccurrence(s: string, t: string)
    requires |s| >= |t| && s[..|t|] != t
    ensures (exists i :: OccursAt(s[1..], t, i)) <==> (exists i :: OccursAt(s, t, i))
  {
    if i :| OccursAt(s[1..], t, i) {
      assert s[1..][i..i + |t|] == s[i + 1..i + 1 + |t|];
      assert OccursAt(s, t, i + 1);
    }
    if i :| OccursAt(s, t, i) {
      assert i != 0;
      assert s[1..][i - 1..i - 1 + |t|] == s[i..i + |t|];
      assert OccursAt(s[1..], t, i - 1);
    }
  }

  /** A non-empty string occurs only in a non-empty string. */
  lemma IncludesNonEmpty(s: string, t: string)
    requires t != [] && Includes(s, t)
    ensures s != []
  {
    IncludesOccurs(s, t);
    var i :| OccursAt(s, t, i);
  }

  /** `s.slice(0, n)`: the first `n` characters of `s`, or all of it. */
  function Prefix(s: string, n: nat): (r: string)
    ensures |r| == if |s| <= n then |s| else n
    ensures r == s[..|r|]
  {
    if |s| <= n then s else s[..n]
  }
}
