/**
  Prefix and suffix tests with the meaning of Go's `strings.HasPrefix` and
  `strings.HasSuffix`: a length check followed by a comparison of one slice.
  Request dispatch tests suffixes and home expansion tests a leading `~`.
 */
module Strings {

  /** `strings.HasPrefix(s, prefix)`. */
  predicate HasPrefix(s: string, prefix: string) {
    |prefix| <= |s| && s[..|prefix|] == prefix
  }

  /** `strings.HasSuffix(s, suffix)`. */
  predicate HasSuffix(s: string, suffix: string) {
    |suffix| <= |s| && s[|s| - |suffix|..] == suffix
  }

  /** A string with suffix `t` is what precedes `t`, followed by `t`. */
  lemma HasSuffixSplit(s: string, t: string)
    ensures HasSuffix(s, t) ==> s[..|s| - |t|] + t == s
  {
  }

  /**
    Appending one character `c` to `s`: a non-empty suffix of the result must end
    in `c`, and what precedes that `c` must be a suffix of `s`. This is what makes
    suffix matching exact: one extra character can break a match.
   */
  lemma HasSuffixSnoc(s: string, c: char, t: string)
    requires t != []
    ensures HasSuffix(s + [c], t) <==> t[|t| - 1] == c && HasSuffix(s, t[..|t| - 1])
  {
    // the last |t| characters of s + [c] are the last |t| - 1 of s, then c
    assert HasSuffix(s + [c], t) ==> (s + [c])[|s| + 1 - |t|..|s|] == s[|s| + 1 - |t|..];
  }
}
