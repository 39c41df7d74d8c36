/** Operations on text shared by the error tables and path resolution. */
module Strings {
  /** `hasPrefix`: `p` is an initial segment of `s`. */
  predicate StartsWith(s: string, p: string)
  {
    |p| <= |s| && s[..|p|] == p
  }
}
