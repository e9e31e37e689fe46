/** Small facts about strings the URI and request-text proofs share. */
module Strings {
  /** A common prefix cancels. */
  lemma PrefixCancel(p: string, x: string, y: string)
    requires p + x == p + y
    ensures x == y
  {
    assert x == (p + x)[|p|..];
    assert y == (p + y)[|p|..];
  }
}
