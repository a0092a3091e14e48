/** `EncryptionService`: a deterministic symmetric cipher over one fixed key and IV, used to
    encrypt user fields at rest. AES-256-CBC with PKCS#7 padding, the UTF-8 conversion before it
    and the Base64 conversion after it are library code; they appear here as the `Aes` pair of
    functions together with the laws the service relies on. */
module Encryption {
  import opened Wrappers

  newtype Byte = x: int | 0 <= x < 256

  const KeyLength: nat := 32
  const IvLength: nat := 16
  const KeyLengthMessage := "Key must be 32 bytes (256 bits) long."
  const IvLengthMessage := "IV must be 16 bytes (128 bits) long."

  /** The library transform: `encrypt(key, iv, text)` is Base64(AES-CBC-PKCS7(UTF-8(text))) and
      `decrypt` undoes it, failing on text that is not Base64 or not a valid padded block sequence. */
  datatype Aes = Aes(encrypt: (seq<Byte>, seq<Byte>, string) -> string,
                     decrypt: (seq<Byte>, seq<Byte>, string) -> Result<string>)
  {
    /** The laws of the library transform for a 32-byte key and a 16-byte IV: decryption undoes
        encryption, and the ciphertext is longer than the plaintext (padding adds 1 to 16 bytes
        and Base64 writes 4 characters for every 3 bytes). */
    ghost predicate Lawful()
    {
      forall key: seq<Byte>, iv: seq<Byte>, s: string {:trigger encrypt(key, iv, s)}
        | |key| == KeyLength && |iv| == IvLength
        :: decrypt(key, iv, encrypt(key, iv, s)) == Success(s) && |encrypt(key, iv, s)| > |s|
    }
  }

  /** A service holds the decoded key and IV, fixed at construction (`readonly`). */
  datatype EncryptionService = EncryptionService(aes: Aes, key: seq<Byte>, iv: seq<Byte>)
  {
    predicate Valid()
    {
      |key| == KeyLength && |iv| == IvLength
    }
  }

  /** The constructor: rejects a key that is not 32 bytes, then an IV that is not 16 bytes,
      each with its own `ArgumentException`. */
  function Create(aes: Aes, key: seq<Byte>, iv: seq<Byte>): (r: Result<EncryptionService>)
    ensures r.Success? <==> |key| == KeyLength && |iv| == IvLength
    ensures r.Success? ==> r.value.Valid() && r.value.key == key && r.value.iv == iv
    ensures |key| != KeyLength ==> r.Failure? && r.error == ArgumentException(KeyLengthMessage)
    ensures |key| == KeyLength && |iv| != IvLength ==> r.Failure? && r.error == ArgumentException(IvLengthMessage)
  {
    if |key| != KeyLength then Failure(ArgumentException(KeyLengthMessage))
    else if |iv| != IvLength then Failure(ArgumentException(IvLengthMessage))
    else Success(EncryptionService(aes, key, iv))
  }

  /** `Encrypt`: the same stored key and IV on every call. */
  function Encrypt(svc: EncryptionService, plainText: string): (r: string)
    ensures svc.Valid() && svc.aes.Lawful() ==>
      Decrypt(svc, Some(r)) == Success(plainText) && |r| > |plainText|
  {
    svc.aes.encrypt(svc.key, svc.iv, plainText)
  }

  /** `Decrypt`: a null argument fails with `ArgumentNullException` before any decoding. */
  function Decrypt(svc: EncryptionService, encryptedText: Option<string>): (r: Result<string>)
    ensures encryptedText.None? ==> r == Failure(ArgumentNullException)
  {
    match encryptedText
    case None => Failure(ArgumentNullException)
    case Some(text) => svc.aes.decrypt(svc.key, svc.iv, text)
  }

  /** Decryption undoes encryption for every string, the empty one included. */
  lemma DecryptEncrypt(svc: EncryptionService, s: string)
    requires svc.Valid() && svc.aes.Lawful()
    ensures Decrypt(svc, Some(Encrypt(svc, s))) == Success(s)
  {
  }

  /** Equal ciphertexts come from equal plaintexts and only from them, so a lookup by
      ciphertext finds exactly the records whose plaintext matches. */
  lemma EncryptInjective(svc: EncryptionService, a: string, b: string)
    requires svc.Valid() && svc.aes.Lawful()
    ensures Encrypt(svc, a) == Encrypt(svc, b) <==> a == b
  {
    if Encrypt(svc, a) == Encrypt(svc, b) {
      DecryptEncrypt(svc, a);
      DecryptEncrypt(svc, b);
    }
  }

  /** No string is its own ciphertext ("Hello, World!" included), and the empty string
      encrypts to a non-empty one that decrypts back to "". */
  lemma CiphertextDiffers(svc: EncryptionService, s: string)
    requires svc.Valid() && svc.aes.Lawful()
    ensures Encrypt(svc, s) != s
    ensures Encrypt(svc, "") != "" && Decrypt(svc, Some(Encrypt(svc, ""))) == Success("")
  {
    assert |Encrypt(svc, s)| > |s|;
    assert |Encrypt(svc, "")| > 0;
  }
}
