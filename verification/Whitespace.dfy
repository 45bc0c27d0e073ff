/** Unicode whitespace, and the trimming built on it. */
module Whitespace {

  /** The Unicode property `White_Space`, which is what `trim_end` strips. */
  predicate IsWhitespace(c: char) {
    '\U{0009}' <= c <= '\U{000D}' || c == ' ' || c == '\U{0085}' || c == '\U{00A0}' || c == '\U{1680}'
    || '\U{2000}' <= c <= '\U{200A}' || c == '\U{2028}' || c == '\U{2029}' || c == '\U{202F}' || c == '\U{205F}' || c == '\U{3000}'
  }

  /** That is 25 characters. */
  lemma WhitespaceIs(c: char)
    ensures IsWhitespace(c)
            <==> c as int in {9, 10, 11, 12, 13, 32, 0x85, 0xA0, 0x1680, 0x2000, 0x2001, 0x2002, 0x2003, 0x2004, 0x2005, 0x2006,
                              0x2007, 0x2008, 0x2009, 0x200A, 0x2028, 0x2029, 0x202F, 0x205F, 0x3000}
  {
  }

  predicate AllWhitespace(s: string) { forall i :: 0 <= i < |s| ==> IsWhitespace(s[i]) }

  function TrimEnd(s: string): string {
    if s != [] && IsWhitespace(s[|s| - 1]) then TrimEnd(s[..|s| - 1]) else s
  }

  function TrimStart(s: string): string {
    if s != [] && IsWhitespace(s[0]) then TrimStart(s[1..]) else s
  }

  function Trim(s: string): string { TrimEnd(TrimStart(s)) }

  /** Nothing to trim. */
  predicate Trimmed(s: string) {
    s != [] ==> !IsWhitespace(s[0]) && !IsWhitespace(s[|s| - 1])
  }

  lemma {:induction false} TrimEndSplit(s: string)
    ensures |TrimEnd(s)| <= |s| && s == TrimEnd(s) + s[|TrimEnd(s)|..] && AllWhitespace(s[|TrimEnd(s)|..])
  {
    if s != [] && IsWhitespace(s[|s| - 1]) { TrimEndSplit(s[..|s| - 1]); }
  }

  lemma {:induction false} TrimEndDone(s: string)
    ensures TrimEnd(s) != [] ==> !IsWhitespace(TrimEnd(s)[|TrimEnd(s)| - 1])
  {
    if s != [] && IsWhitespace(s[|s| - 1]) { TrimEndDone(s[..|s| - 1]); }
  }

  lemma {:induction false} TrimStartSplit(s: string) returns (n: nat)
    ensures n <= |s| && TrimStart(s) == s[n..] && (n < |s| ==> !IsWhitespace(s[n])) && AllWhitespace(s[..n])
  {
    if s != [] && IsWhitespace(s[0]) {
      var m := TrimStartSplit(s[1..]);
      n := m + 1;
      assert s[1..][m..] == s[n..];
    } else {
      n := 0;
    }
  }

  /** Trimming takes a slice with nothing left to trim, and leaves alone what is trimmed already. */
  lemma TrimSlice(s: string) returns (i: nat, j: nat)
    ensures i <= j <= |s| && Trim(s) == s[i..j] && Trimmed(Trim(s))
    ensures AllWhitespace(s[..i]) && AllWhitespace(s[j..])
    ensures Trimmed(s) ==> Trim(s) == s
    ensures s != [] && !IsWhitespace(s[|s| - 1]) ==> j == |s|
  {
    i := TrimStartSplit(s);
    var t := TrimStart(s);
    TrimEndSplit(t);
    TrimEndDone(t);
    j := i + |TrimEnd(t)|;
    assert TrimEnd(t) == t[..|TrimEnd(t)|] == s[i..j];
    assert t != [] ==> t[|t| - 1] == s[|s| - 1];
  }
}
