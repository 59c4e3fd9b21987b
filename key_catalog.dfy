/**
 * The key types an enclave may be asked to create, with the algorithm
 * parameters each one needs. These are plain descriptors: the source gives
 * them no behaviour and no equality.
 */
module KeyCatalog {

  datatype EnclaveKey =
    | Ed25519
    | X25519
    | Ecdh(curve: EcCurve)
    | Ecdsa(curve: EcCurve, hash: EcdsaAlgorithm)
    | RsaOaep(mgf: RsaMgf)
    /** Legacy PKCS#1 v1.5 signatures; ECDSA, Ed25519 or RSA-PSS are preferred. */
    | RsaPkcs15(mgf: RsaMgf)
    | RsaPss(mgf: RsaMgf)
    | Hmac(hmac: HmacAlgorithm)
    | WrapKey(wrapping: WrappingKey)

  datatype WrappingKey = Aes(size: AesSize, mode: AesMode) | XChachaPoly1305

  datatype AesSize = Aes128 | Aes192 | Aes256

  /** AEAD modes: CCM (NIST SP 800-38C), GCM, and GCM-SIV (RFC 8452). */
  datatype AesMode = Ccm | Gcm | GcmSiv

  datatype EcCurve = Secp256r1 | Secp384r1 | Secp512r1 | Secp256k1

  /** SHA-1 is kept for legacy use only. */
  datatype EcdsaAlgorithm = Sha1 | Sha256 | Sha384 | Sha512

  /** SHA-1 is kept for legacy use only. */
  datatype HmacAlgorithm = Sha1 | Sha256 | Sha384 | Sha512

  /** Mask generation hash for RSA; SHA-1 is kept for legacy use only. */
  datatype RsaMgf = Sha1 | Sha256 | Sha384 | Sha512
}
