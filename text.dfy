/** Character classes and the string tests the checker builds on: the regex
    classes `\d`, `[A-Z]`, `[a-z]` and the detected specials, `str.lower`,
    reversal, the `in` substring test and the two run regexes. */
module Text {
  import opened Config

  predicate IsDigit(c: char) { '0' <= c <= '9' }
  predicate IsUpper(c: char) { 'A' <= c <= 'Z' }
  predicate IsLower(c: char) { 'a' <= c <= 'z' }
  predicate IsDetectedSpecial(c: char) { c in DETECTED_SPECIALS }

  /** The four classes the checker counts, in the order it reports them. */
  datatype CharClass = Digits | Uppercase | Lowercase | Special

  predicate InClass(c: char, k: CharClass)
  {
    match k
    case Digits => IsDigit(c)
    case Uppercase => IsUpper(c)
    case Lowercase => IsLower(c)
    case Special => IsDetectedSpecial(c)
  }

  /** The number of matches of `re.findall` for class `k`. */
  function Count(s: string, k: CharClass): (n: nat)
    ensures n <= |s|
  {
    if s == [] then 0
    else Count(s[..|s| - 1], k) + (if InClass(s[|s| - 1], k) then 1 else 0)
  }

  /** `re.search` for class `k` succeeds. */
  predicate Appears(s: string, k: CharClass)
  {
    exists i :: 0 <= i < |s| && InClass(s[i], k)
  }

  /** Counting (findall) and searching (search) agree on presence. */
  lemma {:induction false} CountPositiveIff(s: string, k: CharClass)
    ensures Count(s, k) > 0 <==> Appears(s, k)
  {
    if s != [] {
      var t := s[..|s| - 1];
      CountPositiveIff(t, k);
      if Appears(t, k) {
        var i :| 0 <= i < |t| && InClass(t[i], k);
        assert s[i] == t[i];
      }
      if Appears(s, k) && !InClass(s[|s| - 1], k) {
        var i :| 0 <= i < |s| && InClass(s[i], k);
        assert i < |t| && t[i] == s[i];
      }
    }
  }

  /** A class present in `p` is present in every extension of `p`. */
  lemma AppearsExtends(p: string, q: string, k: CharClass)
    requires Appears(p, k)
    ensures Appears(p + q, k)
  {
    var i :| 0 <= i < |p| && InClass(p[i], k);
    assert (p + q)[i] == p[i];
  }

  /** ASCII `str.lower` on one character. */
  function ToLower(c: char): char
  {
    if IsUpper(c) then (c as int + 32) as char else c
  }

  function Lower(s: string): string
  {
    seq(|s|, i requires 0 <= i < |s| => ToLower(s[i]))
  }

  /** The slice `s[::-1]`. */
  function Reverse(s: string): string
  {
    seq(|s|, i requires 0 <= i < |s| => s[|s| - 1 - i])
  }

  /** Reversal keeps the characters. */
  lemma ReverseKeepsChars(p: string, c: char)
    requires c in p
    ensures c in Reverse(p)
  {
    var j :| 0 <= j < |p| && p[j] == c;
    assert Reverse(p)[|p| - 1 - j] == c;
  }

  /** `p` starts at position `i` of `s`. */
  predicate OccursAt(p: string, s: string, i: int)
  {
    0 <= i && i + |p| <= |s| && s[i..i + |p|] == p
  }

  /** Python's `p in s`. */
  predicate IsSubstring(p: string, s: string)
  {
    exists i :: 0 <= i <= |s| && OccursAt(p, s, i)
  }

  /** A character of `p` that `s` lacks rules `p` out as a substring. */
  lemma AbsentCharRulesOut(p: string, s: string, c: char)
    requires c in p && c !in s
    ensures !IsSubstring(p, s)
  {
  }

  /** Three digits start at position `i`. */
  predicate DigitRunAt(s: string, i: int)
  {
    0 <= i && i + 3 <= |s| && IsDigit(s[i]) && IsDigit(s[i + 1]) && IsDigit(s[i + 2])
  }

  /** `re.search(r"\d{3,}", s)` succeeds. */
  predicate HasDigitRun(s: string)
  {
    exists i :: 0 <= i < |s| && DigitRunAt(s, i)
  }

  /** One character other than a newline (`.` does not match `\n`) is
      repeated at positions `i` to `i + 3`. */
  predicate RepeatAt(s: string, i: int)
  {
    0 <= i && i + 4 <= |s| && s[i] != '\n'
    && s[i + 1] == s[i] && s[i + 2] == s[i] && s[i + 3] == s[i]
  }

  /** `re.search(r"(.)\1{3,}", s)` succeeds. */
  predicate HasRepeatRun(s: string)
  {
    exists i :: 0 <= i < |s| && RepeatAt(s, i)
  }
}
