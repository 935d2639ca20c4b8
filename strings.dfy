/** Prefix tests shared by the browser client and the two services. */
module Strings {

  /** `s.startsWith(p)` in JavaScript and `s.startswith(p)` in Python. */
  predicate StartsWith(s: string, p: string) {
    |p| <= |s| && s[..|p|] == p
  }
}
