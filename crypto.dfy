/** The client's cipher box (crypto.js): one AES-GCM key per session, encryption with a fresh
    12-byte IV, fail-closed decryption, the IV-prefixed base64 envelope and the hex digest. */
module Crypto {
  import opened Common
  import Base64
  import Hex

  /** Length in bytes of the AES-GCM initialisation vector, fixed by the envelope format. */
  const IvLength: nat := 12

  type Iv = s: Bytes | |s| == IvLength witness [0, 0, 0, 0, 0, 0, 0, 0, 0, 0, 0, 0]

  /** Opaque key material produced by the crypto provider. */
  datatype Key = Key(material: Bytes)

  /** The primitives the browser supplies and the model does not open: AES-GCM (NIST SP 800-38D)
      encryption and decryption, the SHA-256 digest (FIPS 180-4), and UTF-8 encoding and
      decoding. `open` yields None where the authentication tag does not check. */
  datatype Primitives = Primitives(
    seal: (Key, Bytes, Bytes) -> Bytes,
    open: (Key, Bytes, Bytes) -> Option<Bytes>,
    digest: Bytes -> Bytes,
    utf8Encode: string -> Bytes,
    utf8Decode: Bytes -> string)

  /** The only laws assumed of the primitives: decryption under the same key and IV undoes
      encryption, UTF-8 decoding undoes encoding, and a SHA-256 digest has 32 bytes. */
  ghost predicate Sound(p: Primitives)
  {
    (forall k, iv, m :: p.open(k, iv, p.seal(k, iv, m)) == Some(m))
    && (forall s :: p.utf8Decode(p.utf8Encode(s)) == s)
    && (forall d :: |p.digest(d)| == 32)
  }

  const Bom: char := '\U{FEFF}'

  /** The placeholder `decrypt` returns instead of throwing when the cipher fails. */
  const Undecryptable: string := "[Message non déchiffrable]"

  /** `new TextDecoder().decode(bytes)`: UTF-8 decoding, then removal of one leading byte order mark. */
  function TextDecode(p: Primitives, bytes: Bytes): string
  {
    var s := p.utf8Decode(bytes);
    if |s| > 0 && s[0] == Bom then s[1..] else s
  }

  /** What `encrypt` accepts: a string (encoded as UTF-8 first) or raw bytes. */
  datatype Plaintext = Text(text: string) | Binary(data: Bytes)

  function PlainBytes(p: Primitives, d: Plaintext): Bytes
  {
    match d
    case Text(t) => p.utf8Encode(t)
    case Binary(b) => b
  }

  /** `{ encrypted, iv }` as `encrypt` returns and `deserializeEncrypted` rebuilds it. */
  datatype Encrypted = Encrypted(encrypted: Bytes, iv: Bytes)

  /** The encrypted bytes of a file together with its metadata (`encryptFile`). */
  datatype EncryptedFile = EncryptedFile(encrypted: Bytes, iv: Bytes, name: string, mimeType: string, size: nat)

  /** Why an operation throws: no key yet, or the cipher rejected its input. */
  datatype CryptoError = KeyNotGenerated | CipherFailure

  /** `serializeEncrypted`: the IV, then the ciphertext, as one base64 string. */
  function Serialize(encrypted: Bytes, iv: Bytes): string
  {
    Base64.Encode(iv + encrypted)
  }

  /** `deserializeEncrypted`: the first twelve decoded bytes are the IV, the rest the ciphertext.
      None is the exception `atob` throws on text that is not base64; short input is not rejected. */
  function Deserialize(serialized: string): Option<Encrypted>
  {
    match Base64.Decode(serialized)
    case None => None
    case Some(combined) => Some(Encrypted(Suffix(combined, IvLength), Prefix(combined, IvLength)))
  }

  /** What `decrypt` returns once a key exists: the UTF-8 plaintext, or the placeholder when
      AES-GCM rejects the ciphertext. */
  function OpenText(p: Primitives, key: Key, encrypted: Bytes, iv: Bytes): string
  {
    match p.open(key, iv, encrypted)
    case Some(plain) => TextDecode(p, plain)
    case None => Undecryptable
  }

  /** `generateHash`: the SHA-256 digest of the UTF-8 text, as lower-case hex. */
  function HashHex(p: Primitives, data: string): string
  {
    Hex.HexString(p.digest(p.utf8Encode(data)))
  }

  class CryptoManager {
    const primitives: Primitives
    var key: Option<Key>
    var keyGenerated: bool

    /** The flag says exactly whether a key is held. */
    ghost predicate Valid()
      reads this
    {
      keyGenerated <==> key.Some?
    }

    constructor (primitives: Primitives)
      ensures Valid() && this.primitives == primitives
      ensures key == None && !keyGenerated
    {
      this.primitives := primitives;
      key := None;
      keyGenerated := false;
    }

    /** `generateKey`: `generated` is the provider's answer, None when it throws. On success the
        key is replaced and the flag set; on failure nothing changes and false is returned. */
    method GenerateKey(generated: Option<Key>) returns (ok: bool)
      requires Valid()
      modifies this
      ensures Valid()
      ensures ok <==> generated.Some?
      ensures ok ==> key == generated && keyGenerated
      ensures !ok ==> key == old(key) && keyGenerated == old(keyGenerated)
    {
      match generated {
        case Some(k) =>
          key := Some(k);
          keyGenerated := true;
          ok := true;
        case None =>
          ok := false;
      }
    }

    /** `encrypt`: throws while no key is held; otherwise encrypts under the IV the random
        source drew (`freshIv`) and returns that IV beside the ciphertext. */
    method Encrypt(data: Plaintext, freshIv: Iv) returns (r: Result<Encrypted, CryptoError>)
      requires Valid()
      ensures r.Failure? <==> !keyGenerated
      ensures r.Failure? ==> r.error == KeyNotGenerated
      ensures r.Success? ==> r.value.iv == freshIv && |r.value.iv| == IvLength
      ensures r.Success? ==> r.value.encrypted == primitives.seal(key.value, freshIv, PlainBytes(primitives, data))
    {
      if !keyGenerated {
        return Failure(KeyNotGenerated);
      }
      var plain := PlainBytes(primitives, data);
      r := Success(Encrypted(primitives.seal(key.value, freshIv, plain), freshIv));
    }

    /** `decrypt`: throws while no key is held; with a key it never throws and yields the
        plaintext or the placeholder. */
    method Decrypt(encrypted: Bytes, iv: Bytes) returns (r: Result<string, CryptoError>)
      requires Valid()
      ensures r.Failure? <==> !keyGenerated
      ensures r.Failure? ==> r.error == KeyNotGenerated
      ensures r.Success? ==> r.value == OpenText(primitives, key.value, encrypted, iv)
      ensures r.Success? && primitives.open(key.value, iv, encrypted).None? ==> r.value == Undecryptable
    {
      if !keyGenerated {
        return Failure(KeyNotGenerated);
      }
      var outcome := primitives.open(key.value, iv, encrypted);
      match outcome {
        case Some(plain) => r := Success(TextDecode(primitives, plain));
        case None => r := Success(Undecryptable);
      }
    }

    /** `encryptFile`: the file's bytes encrypted as by `encrypt`, with name, type and size. */
    method EncryptFile(file: File, freshIv: Iv) returns (r: Result<EncryptedFile, CryptoError>)
      requires Valid()
      ensures r.Failure? <==> !keyGenerated
      ensures r.Success? ==> r.value.iv == freshIv && r.value.name == file.name
      ensures r.Success? ==> r.value.mimeType == file.mimeType && r.value.size == file.Size()
      ensures r.Success? ==> r.value.encrypted == primitives.seal(key.value, freshIv, file.data)
    {
      var e := Encrypt(Binary(file.data), freshIv);
      match e {
        case Failure(err) => r := Failure(err);
        case Success(v) => r := Success(EncryptedFile(v.encrypted, v.iv, file.name, file.mimeType, file.Size()));
      }
    }

    /** `decryptFile`: unlike `decrypt` it consults the key itself and lets the cipher's
        failure escape, so both a missing key and a rejected ciphertext throw. */
    method DecryptFile(encrypted: Bytes, iv: Bytes, name: string, mimeType: string) returns (r: Result<Blob, CryptoError>)
      requires Valid()
      ensures key.None? ==> r == Failure(KeyNotGenerated)
      ensures key.Some? ==> (r.Success? <==> primitives.open(key.value, iv, encrypted).Some?)
      ensures key.Some? && r.Failure? ==> r.error == CipherFailure
      ensures r.Success? ==> r.value == Blob(primitives.open(key.value, iv, encrypted).value, mimeType)
    {
      match key {
        case None => r := Failure(KeyNotGenerated);
        case Some(k) =>
          match primitives.open(k, iv, encrypted) {
            case Some(plain) => r := Success(Blob(plain, mimeType));
            case None => r := Failure(CipherFailure);
          }
      }
    }

    /** `cleanup`: forgets the key; every later `encrypt` and `decrypt` throws until a new key. */
    method Cleanup()
      modifies this
      ensures Valid() && key == None && !keyGenerated
    {
      key := None;
      keyGenerated := false;
    }
  }

  /** The serialised bytes are the IV followed by the ciphertext, |iv| + |c| of them. */
  lemma SerializeLayout(encrypted: Bytes, iv: Bytes)
    ensures Base64.Decode(Serialize(encrypted, iv)) == Some(iv + encrypted)
    ensures |iv + encrypted| == |iv| + |encrypted|
  {
    Base64.DecodeEncode(iv + encrypted);
  }

  /** Deserialising splits the decoded bytes at byte 12 and loses nothing: the IV is the first
      min(12, n) bytes, the ciphertext the rest, and together they are the decoded bytes. */
  lemma DeserializeSplit(serialized: string)
    ensures Deserialize(serialized).None? <==> Base64.Decode(serialized).None?
    ensures Deserialize(serialized).Some? ==>
      var e, b := Deserialize(serialized).value, Base64.Decode(serialized).value;
      e.iv + e.encrypted == b && |e.iv| == (if |b| < IvLength then |b| else IvLength)
  {
    match Base64.Decode(serialized) {
      case None =>
      case Some(b) =>
        var e := Deserialize(serialized).value;
        if |b| >= IvLength { assert b[..IvLength] + b[IvLength..] == b; }
        else { assert e.iv == b && e.encrypted == []; }
    }
  }

  /** Fewer than twelve decoded bytes are taken whole as the IV with an empty ciphertext. */
  lemma DeserializeShort(serialized: string)
    requires Base64.Decode(serialized).Some? && |Base64.Decode(serialized).value| < IvLength
    ensures Deserialize(serialized) == Some(Encrypted([], Base64.Decode(serialized).value))
  {
  }

  /** Deserialising a serialised envelope with a 12-byte IV gives back exactly that IV and ciphertext. */
  lemma DeserializeSerialize(encrypted: Bytes, iv: Bytes)
    requires |iv| == IvLength
    ensures Deserialize(Serialize(encrypted, iv)) == Some(Encrypted(encrypted, iv))
  {
    SerializeLayout(encrypted, iv);
    var b := iv + encrypted;
    assert b[..IvLength] == iv && b[IvLength..] == encrypted;
  }

  /** Text survives encryption and decryption under one key exactly when it does not start with
      a byte order mark, which the decoder drops. */
  lemma TextRoundTrip(p: Primitives, key: Key, iv: Bytes, text: string)
    requires Sound(p)
    ensures OpenText(p, key, p.seal(key, iv, p.utf8Encode(text)), iv) == text
        <==> !(|text| > 0 && text[0] == Bom)
  {
    assert p.open(key, iv, p.seal(key, iv, p.utf8Encode(text))) == Some(p.utf8Encode(text));
    assert p.utf8Decode(p.utf8Encode(text)) == text;
    if |text| > 0 && text[0] == Bom {
      assert |text[1..]| < |text|;
    }
  }

  /** End to end: a message encrypted with a fresh IV, serialised, deserialised and decrypted
      under the same key reads back as the original text (barring a leading byte order mark). */
  lemma EnvelopeRoundTrip(p: Primitives, key: Key, iv: Iv, text: string)
    requires Sound(p)
    requires !(|text| > 0 && text[0] == Bom)
    ensures var c := p.seal(key, iv, p.utf8Encode(text));
      Deserialize(Serialize(c, iv)) == Some(Encrypted(c, iv))
      && OpenText(p, key, c, iv) == text
  {
    var c := p.seal(key, iv, p.utf8Encode(text));
    DeserializeSerialize(c, iv);
    TextRoundTrip(p, key, iv, text);
  }

  /** The hash text has two lower-case hex digits per digest byte: 64 characters for SHA-256,
      and it reads back as the digest. */
  lemma HashShape(p: Primitives, data: string)
    requires Sound(p)
    ensures |HashHex(p, data)| == 64
    ensures forall i :: 0 <= i < |HashHex(p, data)| ==> Hex.IsLowerHexChar(HashHex(p, data)[i])
    ensures Hex.ParseHex(HashHex(p, data)) == p.digest(p.utf8Encode(data))
  {
    Hex.HexStringRoundTrip(p.digest(p.utf8Encode(data)));
  }
}
