/**
 Digests and the functions that make them. SHA-256 and HMAC are parameters: any functions into
 strings of 64 lowercase hex digits. They are not injective, and nothing here says they are.
 */
module Digests {
  import opened Text

  predicate IsDigest(s: string) {
    |s| == 64 && forall c | c in s :: IsHexDigit(c)
  }

  type Digest = s: string | IsDigest(s) witness seq(64, _ => '0')

  /** A hash of one string. */
  type Hash = string -> Digest

  /** A keyed hash: key, then message. */
  type Mac = (string, string) -> Digest
}
