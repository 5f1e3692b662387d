/**
 * The text encryptor that protects national ids, seen from outside: an encryption
 * function and a decryption that may throw (None) on a string it cannot decrypt.
 * The password it is keyed with is part of the given functions.
 */
module Crypto {
  import opened Base

  datatype Cipher = Cipher(encrypt: string -> string, decrypt: string -> Option<string>)

  /** Decrypting what was encrypted gives the plaintext back. */
  ghost predicate RoundTrips(c: Cipher)
  {
    forall x :: c.decrypt(c.encrypt(x)) == Some(x)
  }
}
