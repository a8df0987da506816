/**
 * The ChaCha20-Poly1305 AEAD construction of section 2.8 of RFC 8439 (the IETF
 * variant), as libsodium's crypto_aead_chacha20poly1305_ietf_decrypt exposes it.
 * The primitive itself is not modelled: it is a parameter of the code that uses
 * it, constrained only by the length guarantees below.
 */
module Aead {
  import opened Bytes
  import opened Wrappers

  const KEY_SIZE := 32
  const NONCE_SIZE := 12
  const TAG_SIZE := 16

  /** open(key, nonce, aad, ciphertext ++ tag): the plaintext, or None when the tag does not verify. */
  type Opener = (seq<byte>, seq<byte>, seq<byte>, seq<byte>) -> Option<seq<byte>>

  /** seal(key, nonce, aad, plaintext): ciphertext ++ tag. */
  type Sealer = (seq<byte>, seq<byte>, seq<byte>, seq<byte>) -> seq<byte>

  /**
   * What the decoder may rely on: a call succeeds only with a 32-byte key, a
   * 12-byte nonce and at least a tag's worth of input, and then returns the
   * input less its 16-byte tag.
   */
  ghost predicate Conforms(open: Opener) {
    forall key, nonce, aad, ctTag {:trigger open(key, nonce, aad, ctTag)} ::
      open(key, nonce, aad, ctTag).Some? ==>
        && |key| == KEY_SIZE && |nonce| == NONCE_SIZE && |ctTag| >= TAG_SIZE
        && |open(key, nonce, aad, ctTag).value| == |ctTag| - TAG_SIZE
  }

  /** The correctness of the construction: opening what was sealed gives the plaintext back. */
  ghost predicate Inverts(open: Opener, seal: Sealer) {
    forall key, nonce, aad, pt {:trigger seal(key, nonce, aad, pt)} ::
      |key| == KEY_SIZE && |nonce| == NONCE_SIZE ==>
        && |seal(key, nonce, aad, pt)| == |pt| + TAG_SIZE
        && open(key, nonce, aad, seal(key, nonce, aad, pt)) == Some(pt)
  }
}
