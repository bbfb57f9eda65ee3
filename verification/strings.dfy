/** The parts of Go's `strings` package that the modelled code relies on, over byte strings
    (each `char` stands for one byte). */
module Strings {

  /** `sub` occurs in `s` starting at position `i`. */
  predicate OccursAt(s: string, sub: string, i: nat)
  {
    i + |sub| <= |s| && s[i..i + |sub|] == sub
  }

  /** Specification of substring containment: some start position matches. */
  ghost predicate IsSubstring(sub: string, s: string)
  {
    exists i: nat :: OccursAt(s, sub, i)
  }

  /** When `sub` does not start `s`, it occurs in `s` exactly when it occurs in `s` without its
      first byte. */
  lemma NoMatchAtStart(s: string, sub: string)
    requires |sub| <= |s| && s[..|sub|] != sub
    ensures IsSubstring(sub, s) <==> IsSubstring(sub, s[1..])
  {
    if IsSubstring(sub, s) {
      var i: nat :| OccursAt(s, sub, i);
      assert i != 0;
      assert s[1..][i - 1..i - 1 + |sub|] == s[i..i + |sub|];
      assert OccursAt(s[1..], sub, i - 1);
    }
    if IsSubstring(sub, s[1..]) {
      var i: nat :| OccursAt(s[1..], sub, i);
      assert s[1..][i..i + |sub|] == s[i + 1..i + 1 + |sub|];
      assert OccursAt(s, sub, i + 1);
    }
  }

  /** `strings.Contains(s, sub)`: tries every start position from the left, and finds `sub` exactly
      when it occurs somewhere in `s`. */
  function Contains(s: string, sub: string): (r: bool)
    ensures r <==> IsSubstring(sub, s)
    decreases |s|
  {
    if |sub| > |s| then
      assert forall i: nat :: !OccursAt(s, sub, i);
      false
    else if s[..|sub|] == sub then
      assert OccursAt(s, sub, 0);
      true
    else
      NoMatchAtStart(s, sub);
      Contains(s[1..], sub)
  }

  /** The bytes `strings.TrimSpace` removes: the ASCII white-space set
      tab, line feed, vertical tab, form feed, carriage return and space. */
  predicate IsSpace(c: char)
  {
    c == ' ' || 9 <= c as int <= 13
  }

  /** Drops leading white space. */
  function TrimLeft(s: string): (r: string)
    ensures |r| <= |s| && r == s[|s| - |r|..]
    ensures forall i :: 0 <= i < |s| - |r| ==> IsSpace(s[i])
    ensures |r| > 0 ==> !IsSpace(r[0])
    decreases |s|
  {
    if |s| > 0 && IsSpace(s[0]) then TrimLeft(s[1..]) else s
  }

  /** Drops trailing white space. */
  function TrimRight(s: string): (r: string)
    ensures |r| <= |s| && r == s[..|r|]
    ensures forall i :: |r| <= i < |s| ==> IsSpace(s[i])
    ensures |r| > 0 ==> !IsSpace(r[|r| - 1])
    decreases |s|
  {
    if |s| > 0 && IsSpace(s[|s| - 1]) then TrimRight(s[..|s| - 1]) else s
  }

  /** `r` is the slice of `s` starting at `a`, everything before and after it in `s` is white space,
      and `r` neither starts nor ends with white space. */
  ghost predicate TrimmedAt(s: string, r: string, a: nat)
  {
    && a + |r| <= |s|
    && s[a..a + |r|] == r
    && (forall i :: 0 <= i < a ==> IsSpace(s[i]))
    && (forall i :: a + |r| <= i < |s| ==> IsSpace(s[i]))
    && (|r| > 0 ==> !IsSpace(r[0]) && !IsSpace(r[|r| - 1]))
  }

  /** `strings.TrimSpace`: removes leading and trailing white space and nothing else. */
  function TrimSpace(s: string): (r: string)
    ensures TrimmedAt(s, r, |s| - |TrimLeft(s)|)
  {
    TrimRight(TrimLeft(s))
  }

  /** Trimming an already trimmed string changes nothing. */
  lemma TrimSpaceIdempotent(s: string)
    ensures TrimSpace(TrimSpace(s)) == TrimSpace(s)
  {
  }
}
