/**
 * The string primitives the analysis script relies on, restricted to ASCII:
 * Python's `str.lower`, `str.title` and `in`, and the character classes
 * `\w`, `\s` and `\d` of its regular expressions.
 */
module Strings {

  predicate IsUpper(c: char) { 'A' <= c <= 'Z' }
  predicate IsLower(c: char) { 'a' <= c <= 'z' }

  /** A character with case: the only characters `str.title` and `str.lower` touch. */
  predicate IsCased(c: char) { IsUpper(c) || IsLower(c) }

  /** `\d`. */
  predicate IsDigit(c: char) { '0' <= c <= '9' }

  /** `\w`: letters, digits and the underscore. */
  predicate IsWordChar(c: char) { IsCased(c) || IsDigit(c) || c == '_' }

  /** `\s`: the characters for which `str.isspace` holds in the ASCII range. */
  predicate IsSpace(c: char) {
    c == ' ' || c == '\t' || c == '\n' || c == '\r' || c == '\U{0B}' || c == '\U{0C}'
    || ('\U{1C}' <= c <= '\U{1F}')
  }

  /** The character classes the date pattern uses. */
  datatype CharClass = Word | Space | Digit

  predicate InClass(c: char, cls: CharClass) {
    match cls
    case Word => IsWordChar(c)
    case Space => IsSpace(c)
    case Digit => IsDigit(c)
  }

  /** Every character of `t[i..j]` is in `cls`. */
  predicate AllOf(t: string, i: nat, j: nat, cls: CharClass) {
    i <= j <= |t| && forall k | i <= k < j :: InClass(t[k], cls)
  }

  /**
   * The end of the longest run of `cls` characters starting at `i`: where a
   * greedy `\w+`, `\s*` or `\d+` stops.
   */
  function RunEnd(t: string, i: nat, cls: CharClass): (j: nat)
    requires i <= |t|
    ensures AllOf(t, i, j, cls)
    ensures j < |t| ==> !InClass(t[j], cls)
    decreases |t| - i
  {
    if i < |t| && InClass(t[i], cls) then RunEnd(t, i + 1, cls) else i
  }

  /** A run that is followed by a character outside the class ends where RunEnd says. */
  lemma {:induction false} RunEndUnique(t: string, i: nat, j: nat, cls: CharClass)
    requires AllOf(t, i, j, cls)
    requires j < |t| ==> !InClass(t[j], cls)
    ensures RunEnd(t, i, cls) == j
    decreases j - i
  {
    if i < j {
      RunEndUnique(t, i + 1, j, cls);
    }
  }

  function LowerChar(c: char): (r: char)
    ensures !IsUpper(r)
    ensures IsCased(r) == IsCased(c)
    ensures IsLower(c) || !IsCased(c) ==> r == c
  {
    if IsUpper(c) then (c as int + 32) as char else c
  }

  function UpperChar(c: char): (r: char)
    ensures !IsLower(r)
    ensures IsCased(r) == IsCased(c)
    ensures LowerChar(r) == LowerChar(c)
  {
    if IsLower(c) then (c as int - 32) as char else c
  }

  /** Python's `str.lower` on ASCII text. */
  function Lower(s: string): (r: string)
    ensures |r| == |s|
    ensures forall i | 0 <= i < |s| :: r[i] == LowerChar(s[i])
  {
    seq(|s|, i requires 0 <= i < |s| => LowerChar(s[i]))
  }

  /** A string with no upper-case letter. */
  predicate IsLowered(s: string) {
    forall i | 0 <= i < |s| :: !IsUpper(s[i])
  }

  lemma LowerIsLowered(s: string)
    ensures IsLowered(Lower(s))
    ensures Lower(Lower(s)) == Lower(s)
  {
    assert forall i | 0 <= i < |s| :: Lower(Lower(s))[i] == Lower(s)[i];
  }

  lemma LoweredIsFixed(s: string)
    requires IsLowered(s)
    ensures Lower(s) == s
  {
    assert forall i | 0 <= i < |s| :: Lower(s)[i] == s[i];
  }

  /**
   * What `str.title` does to one character, given whether the character
   * before it is cased: a cased character starts a word (upper case) unless
   * it follows a cased character (lower case); anything else is kept.
   */
  function TitleChar(c: char, prevCased: bool): (r: char)
    ensures IsCased(r) == IsCased(c)
    ensures LowerChar(r) == LowerChar(c)
  {
    if !IsCased(c) then c
    else if prevCased then LowerChar(c)
    else UpperChar(c)
  }

  /** `str.title` scanning `s` with the cased-ness of the previous character. */
  function TitleFrom(s: string, prevCased: bool): (r: string)
    ensures |r| == |s|
    ensures forall i | 0 <= i < |s| :: LowerChar(r[i]) == LowerChar(s[i])
  {
    if s == [] then []
    else [TitleChar(s[0], prevCased)] + TitleFrom(s[1..], IsCased(s[0]))
  }

  /** Python's `str.title` on ASCII text: only the case of letters changes. */
  function Title(s: string): (r: string)
    ensures |r| == |s|
    ensures forall i | 0 <= i < |s| :: LowerChar(r[i]) == LowerChar(s[i])
  {
    TitleFrom(s, false)
  }

  /**
   * The position-wise reading of `str.title`: each character is treated
   * according to the character just before it in the input.
   */
  lemma {:induction false} TitleFromAt(s: string, prevCased: bool, i: nat)
    requires i < |s|
    ensures TitleFrom(s, prevCased)[i] == TitleChar(s[i], if i == 0 then prevCased else IsCased(s[i - 1]))
    decreases i
  {
    if i > 0 {
      TitleFromAt(s[1..], IsCased(s[0]), i - 1);
    }
  }

  /** The character `str.title` puts at index `i` of `s`, read off `s` alone. */
  function TitleCharAt(s: string, i: nat): char
    requires i < |s|
  {
    TitleChar(s[i], i > 0 && IsCased(s[i - 1]))
  }

  lemma TitleAll(s: string)
    ensures forall i | 0 <= i < |s| :: Title(s)[i] == TitleCharAt(s, i)
  {
    forall i | 0 <= i < |s|
      ensures Title(s)[i] == TitleCharAt(s, i)
    {
      TitleFromAt(s, false, i);
    }
  }

  /** Title-casing is idempotent. */
  lemma TitleIdempotent(s: string)
    ensures Title(Title(s)) == Title(s)
  {
    var t := Title(s);
    TitleAll(s);
    TitleAll(t);
    assert forall i | 0 <= i < |s| :: Title(t)[i] == t[i];
  }

  /** Lower-casing a title-cased string gives back the lower-cased input. */
  lemma LowerOfTitle(s: string)
    ensures Lower(Title(s)) == Lower(s)
  {
    TitleAll(s);
    assert forall i | 0 <= i < |s| :: Lower(Title(s))[i] == Lower(s)[i];
  }

  /** `p` occurs in `t` starting at index `k`. */
  predicate OccursAt(p: string, t: string, k: int) {
    0 <= k && k + |p| <= |t| && t[k..k + |p|] == p
  }

  /** `p` is a substring of `t`, as Python's `p in t` decides it. */
  ghost predicate IsSubstring(p: string, t: string) {
    exists k :: OccursAt(p, t, k)
  }

  /** Searches for `p` in `t` at the positions from `i` on. */
  function ContainsFrom(t: string, p: string, i: nat): (r: bool)
    requires i <= |t|
    ensures r <==> exists k :: i <= k && OccursAt(p, t, k)
    decreases |t| - i
  {
    if i + |p| > |t| then false
    else if OccursAt(p, t, i) then true
    else i < |t| && ContainsFrom(t, p, i + 1)
  }

  /** Python's `p in t`. */
  function Contains(t: string, p: string): (r: bool)
    ensures r <==> IsSubstring(p, t)
  {
    ContainsFrom(t, p, 0)
  }
}
