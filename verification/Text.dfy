/** The few functions of Go's `strings` package that the repository uses. */
module Text {
  import opened Wrappers

  predicate HasPrefix(s: string, prefix: string) {
    prefix <= s
  }

  predicate HasSuffix(s: string, suffix: string) {
    |suffix| <= |s| && s[|s| - |suffix|..] == suffix
  }

  function CutPrefix(s: string, prefix: string): Option<string> {
    if HasPrefix(s, prefix) then Some(s[|prefix|..]) else None
  }

  function TrimPrefix(s: string, prefix: string): string {
    match CutPrefix(s, prefix)
    case Some(rest) => rest
    case None => s
  }

  /** Two prefixes of one string: the shorter is a prefix of the longer. */
  lemma PrefixesNest(s: string, p: string, q: string)
    requires p <= s && q <= s && |p| <= |q|
    ensures p <= q
  {
    assert q[..|p|] == s[..|p|] == p;
  }
}
