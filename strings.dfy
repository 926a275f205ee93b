/** String helpers shared by the navigation rule and the purchase-order form watcher. */
module Strings {

  /** JavaScript's `s.startsWith(prefix)`: a character-by-character prefix test. */
  predicate StartsWith(s: string, prefix: string) {
    |prefix| <= |s| && s[..|prefix|] == prefix
  }
}
