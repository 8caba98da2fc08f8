/**
 What the ledger takes from outside itself: a hash function, two signature
 schemes, and the reading of names and times. Every theorem holds for every
 `World`; nothing is assumed of `sha` beyond its 32-byte results, so statements
 about equality name a pair of preimages that collide instead of assuming none do.
 */
module Crypto {
  import opened Wrappers
  import opened Bytes

  datatype World = World(
    sha: Bytes -> Digest,                    // SHA-256
    ed25519: (Bytes, Bytes, Bytes) -> bool,  // validator key, message, signature
    p256: (Bytes, Bytes, Bytes) -> bool,     // device key, message, DER signature
    onCurve: Bytes -> bool,                  // a 65-byte uncompressed P-256 point
    nfc: string -> bool,                     // already NFC-normalised
    when: string -> Option<int>,             // an RFC 3339 time, in microseconds since 1970
    parseInt: string -> Option<int>)         // Python's `int()`

  /** Two byte strings the hash function does not tell apart. */
  ghost predicate Collide(w: World, a: Bytes, b: Bytes) {
    a != b && w.sha(a) == w.sha(b)
  }

  /** `sha256_hex`. */
  function Sha256Hex(w: World, b: Bytes): (h: string)
    ensures IsHex64(h)
  {
    Hex(w.sha(b))
  }
}
