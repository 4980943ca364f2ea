/** The text form of SHA-256 digests. The hash itself is a parameter wherever one is computed. */
module Digests {
  import opened Decimals

  predicate IsHex(c: char) {
    '0' <= c <= '9' || 'a' <= c <= 'f'
  }

  predicate AllHex(text: string) {
    forall i | 0 <= i < |text| :: IsHex(text[i])
  }

  /** The hexadecimal digits of a digest. */
  type Hex64 = d: string | |d| == 64 && AllHex(d) witness Zeros(64)
}
