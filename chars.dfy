/**
 * Character classes of the regular expressions used by the engine, restricted to ASCII,
 * and JavaScript's `toLowerCase` on ASCII letters.
 */
module Chars {

  /** `\s` on ASCII: space, tab, line feed, vertical tab, form feed, carriage return. */
  predicate IsSpace(c: char) {
    c == ' ' || c == '\t' || c == '\n' || c == '\U{000B}' || c == '\U{000C}' || c == '\r'
  }

  predicate IsNewline(c: char) { c == '\n' }

  predicate IsUpper(c: char) { 'A' <= c <= 'Z' }

  predicate IsLowerLetter(c: char) { 'a' <= c <= 'z' }

  predicate IsDigit(c: char) { '0' <= c <= '9' }

  /** `\w`: `[A-Za-z0-9_]`. */
  predicate IsWordChar(c: char) { IsUpper(c) || IsLowerLetter(c) || IsDigit(c) || c == '_' }

  /** `toLowerCase` of one ASCII character. */
  function Lower(c: char): (d: char)
    ensures !IsUpper(d)
    ensures IsUpper(c) ==> IsLowerLetter(d)
    ensures !IsUpper(c) ==> d == c
    ensures IsSpace(d) <==> IsSpace(c)
    ensures IsWordChar(d) <==> IsWordChar(c)
    ensures IsDigit(d) <==> IsDigit(c)
  {
    if IsUpper(c) then (c as int + 32) as char else c
  }

  /** `toLowerCase` of a string, character by character. */
  function LowerStr(s: string): (r: string)
    ensures |r| == |s|
    ensures forall i :: 0 <= i < |s| ==> r[i] == Lower(s[i])
  {
    seq(|s|, i requires 0 <= i < |s| => Lower(s[i]))
  }

  /** A string none of whose characters is an upper-case letter. */
  predicate IsLowercase(s: string) {
    forall i :: 0 <= i < |s| ==> !IsUpper(s[i])
  }

  lemma LowerStrIsLowercase(s: string)
    ensures IsLowercase(LowerStr(s))
  {
  }

  lemma LowerStrOfLowercase(s: string)
    requires IsLowercase(s)
    ensures LowerStr(s) == s
  {
  }

  lemma LowerStrIdempotent(s: string)
    ensures LowerStr(LowerStr(s)) == LowerStr(s)
  {
  }

  lemma LowerStrSlice(s: string, a: int, b: int)
    requires 0 <= a <= b <= |s|
    ensures LowerStr(s[a..b]) == LowerStr(s)[a..b]
  {
  }

  lemma LowerStrConcat(s: string, t: string)
    ensures LowerStr(s + t) == LowerStr(s) + LowerStr(t)
  {
  }
}
