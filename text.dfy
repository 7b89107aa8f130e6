/**
 * Java's String.trim, which the tracker applies to every username, password,
 * category and description it reads: it removes every leading and trailing
 * character whose code is at or below U+0020.
 */
module Text {

  predicate IsBlank(c: char) {
    c <= ' '
  }

  /** Every character of s is blank. */
  predicate AllBlank(s: string) {
    forall k :: 0 <= k < |s| ==> IsBlank(s[k])
  }

  /** The number of blank characters at the front of s. */
  function LeadingBlanks(s: string): (n: nat)
    ensures n <= |s|
  {
    if s != [] && IsBlank(s[0]) then 1 + LeadingBlanks(s[1..]) else 0
  }

  /** The number of blank characters at the back of s. */
  function TrailingBlanks(s: string): (n: nat)
    ensures n <= |s|
  {
    if s != [] && IsBlank(s[|s| - 1]) then 1 + TrailingBlanks(s[..|s| - 1]) else 0
  }

  /** String.trim: cut off the blank prefix, then the blank suffix of what remains. */
  function Trim(s: string): string {
    var t := s[LeadingBlanks(s)..];
    t[..|t| - TrailingBlanks(t)]
  }

  /** LeadingBlanks counts exactly the blank run at the front. */
  lemma {:induction false} LeadingBlanksExact(s: string)
    ensures AllBlank(s[..LeadingBlanks(s)])
    ensures LeadingBlanks(s) < |s| ==> !IsBlank(s[LeadingBlanks(s)])
  {
    if s != [] && IsBlank(s[0]) {
      LeadingBlanksExact(s[1..]);
      var n := LeadingBlanks(s);
      assert s[..n] == [s[0]] + s[1..][..n - 1];
      assert n < |s| ==> s[n] == s[1..][n - 1];
    }
  }

  /** TrailingBlanks counts exactly the blank run at the back. */
  lemma {:induction false} TrailingBlanksExact(s: string)
    ensures AllBlank(s[|s| - TrailingBlanks(s)..])
    ensures TrailingBlanks(s) < |s| ==> !IsBlank(s[|s| - 1 - TrailingBlanks(s)])
  {
    if s != [] && IsBlank(s[|s| - 1]) {
      var p := s[..|s| - 1];
      TrailingBlanksExact(p);
      var n := TrailingBlanks(s);
      assert s[|s| - n..] == p[|p| - (n - 1)..] + [s[|s| - 1]];
      assert n < |s| ==> s[|s| - 1 - n] == p[|p| - 1 - (n - 1)];
    }
  }

  /**
   * The trimmed string is the slice of s that remains after the blank prefix
   * and the blank suffix are cut off, and it neither starts nor ends with a blank.
   */
  lemma TrimSlice(s: string)
    ensures var r, i := Trim(s), LeadingBlanks(s);
      && i + |r| <= |s|
      && r == s[i..i + |r|]
      && AllBlank(s[..i])
      && AllBlank(s[i + |r|..])
      && (r == [] || (!IsBlank(r[0]) && !IsBlank(r[|r| - 1])))
  {
    var i := LeadingBlanks(s);
    var t := s[i..];
    var r := Trim(s);
    LeadingBlanksExact(s);
    TrailingBlanksExact(t);
    assert s[i + |r|..] == t[|t| - TrailingBlanks(t)..];
    if r != [] {
      assert r[0] == t[0] == s[i];
      assert r[|r| - 1] == t[|t| - 1 - TrailingBlanks(t)];
    }
  }

  /** Trimming twice is trimming once. */
  lemma TrimIdempotent(s: string)
    ensures Trim(Trim(s)) == Trim(s)
  {
    TrimSlice(s);
    TrimUnchanged(Trim(s));
  }

  /** A string with no blank at either end is its own trim. */
  lemma TrimUnchanged(s: string)
    requires s == [] || (!IsBlank(s[0]) && !IsBlank(s[|s| - 1]))
    ensures Trim(s) == s
  {
    assert LeadingBlanks(s) == 0;
    assert TrailingBlanks(s) == 0;
  }

  lemma TrimExample()
    ensures Trim(" alice\t") == "alice"
  {
    assert LeadingBlanks(" alice\t") == 1;
    assert TrailingBlanks(" alice\t"[1..]) == 1;
  }
}
