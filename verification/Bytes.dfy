/** Byte strings, their digests, and the collisions that no result here assumes away. */
module Bytes {

  newtype byte = x: int | 0 <= x < 256

  type Bytes = seq<byte>

  /** SHA-256 in lower-case hexadecimal is an arbitrary function to this model. */
  type Digest = Bytes -> string

  predicate IsLowerHex(c: char) { '0' <= c <= '9' || 'a' <= c <= 'f' }

  /** [0-9a-f]{n} */
  predicate HexText(s: string, n: nat) { |s| == n && forall i :: 0 <= i < n ==> IsLowerHex(s[i]) }

  ghost predicate Collide(sha256: Digest, x: Bytes, y: Bytes) {
    x != y && sha256(x) == sha256(y)
  }
}
