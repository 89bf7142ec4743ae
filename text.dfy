/**
 * The string primitives the dispatcher relies on: substring search
 * (strings.Contains), lower-casing (strings.ToLower, restricted to ASCII
 * letters) and the single-quote to double-quote rewrite applied to a
 * payload before JSON decoding (strings.Replace with n = -1).
 */
module Text {

  /**
   * `sub` occurs in `s` at some offset. A string never occurs in a shorter
   * one, and a prefix always occurs.
   */
  function Contains(s: string, sub: string): (r: bool)
    ensures r ==> |sub| <= |s|
    ensures sub <= s ==> r
  {
    assert s[0..] == s;
    exists i :: 0 <= i <= |s| && sub <= s[i..]
  }

  /** ASCII lower-casing of one character; every other character is kept. */
  function LowerChar(c: char): (d: char)
    ensures 'A' <= c <= 'Z' ==> d as int == c as int + 32
    ensures !('A' <= c <= 'Z') ==> d == c
    ensures !('A' <= d <= 'Z')
  {
    if 'A' <= c <= 'Z' then (c as int + 32) as char else c
  }

  /** Lower-cases a string character by character. */
  function Lower(s: string): (r: string)
    ensures |r| == |s|
    ensures forall i :: 0 <= i < |s| ==> r[i] == LowerChar(s[i])
  {
    if s == [] then [] else [LowerChar(s[0])] + Lower(s[1..])
  }

  /** Replaces every single quote by a double quote, keeping all else. */
  function QuotesToDouble(s: string): (r: string)
    ensures |r| == |s|
    ensures forall i :: 0 <= i < |s| ==> r[i] == (if s[i] == '\'' then '"' else s[i])
    ensures '\'' !in r
  {
    if s == [] then [] else [if s[0] == '\'' then '"' else s[0]] + QuotesToDouble(s[1..])
  }

  /** Lower-casing commutes with taking a suffix. */
  lemma LowerSuffix(s: string, i: nat)
    requires i <= |s|
    ensures Lower(s)[i..] == Lower(s[i..])
  {
    assert forall k :: 0 <= k < |s| - i ==> Lower(s)[i..][k] == Lower(s[i..])[k];
  }

  /** Lower-casing preserves the prefix relation. */
  lemma LowerPrefix(p: string, s: string)
    requires p <= s
    ensures Lower(p) <= Lower(s)
  {
    assert forall k :: 0 <= k < |p| ==> Lower(p)[k] == Lower(s)[k];
  }

  /** A case-sensitive occurrence is also a case-insensitive one. */
  lemma ContainsLower(s: string, sub: string)
    requires Contains(s, sub)
    ensures Contains(Lower(s), Lower(sub))
  {
    var i :| 0 <= i <= |s| && sub <= s[i..];
    LowerPrefix(sub, s[i..]);
    LowerSuffix(s, i);
    assert Lower(sub) <= Lower(s)[i..];
  }
}
