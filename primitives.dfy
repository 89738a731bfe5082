/** The cryptographic and serialisation primitives the core calls but does
    not define. Each is an arbitrary function supplied by the caller; the
    model only relies on the output shapes PHP documents for them. */
module Primitives {
  import opened Php
  import opened Encoding

  /** The output of PHP's `md5()`: 32 lowercase hexadecimal characters. */
  predicate IsDigest(s: string) {
    |s| == 32 && IsLowerHex(s)
  }

  datatype Crypto = Crypto(
    /** `md5($s)`. */
    md5: string -> string,
    /** `hash_hmac('sha256', $data, $key, true)`: the raw 32-byte MAC. */
    hmacRaw: (string, string) -> Bytes,
    /** `hash_hmac('sha256', $data, $key)`: the hexadecimal MAC. */
    hmacHex: (string, string) -> string,
    /** `openssl_encrypt($data, 'AES256', $key, OPENSSL_RAW_DATA, $iv)`. */
    encrypt: (string, string, Bytes) -> Bytes,
    /** `openssl_decrypt($data, 'AES256', $key, OPENSSL_RAW_DATA, $iv)`: a string, or `false`. */
    decrypt: (string, string, string) -> Value,
    /** `wp_json_encode($value)`. */
    json: Value -> Bytes)
  {
    /** The documented output shapes of `md5` and raw HMAC-SHA256. */
    ghost predicate Valid() {
      && (forall s :: IsDigest(md5(s)))
      && (forall d, k :: |hmacRaw(d, k)| == 32)
    }

    /** AES decryption inverts encryption under the same key and IV. */
    ghost predicate CipherInverts() {
      forall t, k, iv: Bytes :: decrypt(encrypt(t, k, iv), k, iv) == Str(t)
    }
  }
}
