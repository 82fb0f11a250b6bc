/**
 * The string primitives the application relies on (`toLowerCase`, `trim`,
 * `replace(/ /g, '_')`, `slice`), over an ASCII-style character domain.
 */
module Text {

  /** The characters `trim` strips: space, and tab through carriage return. */
  predicate IsWhitespace(c: char)
    ensures IsWhitespace(c) ==> !('A' <= c <= 'Z') && !('a' <= c <= 'z') && !('0' <= c <= '9')
  {
    c == ' ' || '\t' <= c <= '\r'
  }

  /** Lower-cases one character; only `A`..`Z` change. */
  function LowerChar(c: char): (l: char)
    ensures !('A' <= l <= 'Z')
    ensures IsWhitespace(l) <==> IsWhitespace(c)
  {
    if 'A' <= c <= 'Z' then (c as int - 'A' as int + 'a' as int) as char else c
  }

  /** `s.toLowerCase()`: every character lower-cased, length kept. */
  function ToLower(s: string): (l: string)
    ensures |l| == |s|
    ensures forall i :: 0 <= i < |s| ==> l[i] == LowerChar(s[i])
  {
    seq(|s|, i requires 0 <= i < |s| => LowerChar(s[i]))
  }

  /** Drops leading whitespace: the result is the suffix of `s` that starts at its first non-blank. */
  function TrimStart(s: string): (t: string)
    ensures |t| <= |s| && t == s[|s| - |t|..]
    ensures forall i :: 0 <= i < |s| - |t| ==> IsWhitespace(s[i])
    ensures t == [] || !IsWhitespace(t[0])
  {
    if |s| > 0 && IsWhitespace(s[0]) then TrimStart(s[1..]) else s
  }

  /** Drops trailing whitespace: the result is the prefix of `s` that ends at its last non-blank. */
  function TrimEnd(s: string): (t: string)
    ensures |t| <= |s| && t == s[..|t|]
    ensures forall i :: |t| <= i < |s| ==> IsWhitespace(s[i])
    ensures t == [] || !IsWhitespace(t[|t| - 1])
  {
    if |s| > 0 && IsWhitespace(s[|s| - 1]) then TrimEnd(s[..|s| - 1]) else s
  }

  /** `s.trim()`: whitespace removed from both ends. */
  function Trim(s: string): (t: string)
    ensures |t| <= |s|
    ensures t == [] || (!IsWhitespace(t[0]) && !IsWhitespace(t[|t| - 1]))
  {
    TrimEnd(TrimStart(s))
  }

  /** A string trims to empty exactly when every character of it is whitespace. */
  lemma {:induction false} TrimEmpty(s: string)
    ensures Trim(s) == [] <==> forall i :: 0 <= i < |s| ==> IsWhitespace(s[i])
  {
    var u := TrimStart(s);
    if Trim(s) == [] {
      forall i | 0 <= i < |s| ensures IsWhitespace(s[i]) {
        if i >= |s| - |u| {
          assert u[i - (|s| - |u|)] == s[i];
        }
      }
    } else {
      assert !IsWhitespace(Trim(s)[0]);
      assert Trim(s)[0] == u[0] == s[|s| - |u|];
    }
  }

  /** `s.replace(/ /g, '_')`: every space becomes an underscore, nothing else changes. */
  function ReplaceSpaces(s: string): (r: string)
    ensures |r| == |s|
    ensures ' ' !in r
    ensures forall i :: 0 <= i < |s| ==> r[i] == (if s[i] == ' ' then '_' else s[i])
  {
    seq(|s|, i requires 0 <= i < |s| => if s[i] == ' ' then '_' else s[i])
  }

  /** `s.slice(0, n)` for `n >= 0`: the first `n` characters, or all of `s` when it is shorter. */
  function Prefix(s: string, n: nat): (p: string)
    ensures |p| == (if |s| <= n then |s| else n)
    ensures p == s[..|p|]
  {
    if |s| <= n then s else s[..n]
  }
}
