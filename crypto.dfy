/** Key management of the wallet (src/lib/crypto.ts): the composition the
    repository writes around BIP-39 mnemonics, BIP-32 derivation, NIP-19
    identities and the WebCrypto PBKDF2 / AES-GCM envelope.

    The libraries themselves are not modelled: every primitive is a field of
    `Primitives`, a record of total functions, so each lemma holds for every
    implementation of them. Where a property depends on what a library
    promises (base64 decodes what it encoded, AES-GCM opens what it sealed)
    that promise is a ghost predicate named in the lemma's `requires`. */
module Crypto {
  import opened Wrappers

  newtype Byte = b: int | 0 <= b < 256
  type Bytes = seq<Byte>

  /** Sizes of the two buffers `encryptWallet` fills from `crypto.getRandomValues`. */
  const SALT_BYTES: nat := 32
  const IV_BYTES: nat := 12

  /** The random PBKDF2 salt and AES-GCM nonce drawn for one encryption. */
  type Salt = s: Bytes | |s| == SALT_BYTES witness seq(SALT_BYTES, _ => 0)
  type Iv = s: Bytes | |s| == IV_BYTES witness seq(IV_BYTES, _ => 0)

  /** An extended BIP-32 key: private key and chain code. */
  datatype HDKey = HDKey(privateKey: Bytes, chainCode: Bytes)

  /** `WalletKeys`: everything derived from one mnemonic, held in memory only. */
  datatype WalletKeys = WalletKeys(
    seed: Bytes,
    mnemonic: string,
    masterKey: HDKey,
    lightningKey: HDKey,
    ecashKey: HDKey,
    nostrPrivateKey: Bytes,
    nostrPublicKey: string,
    npub: string,
    nsec: string)

  /** `EncryptedWallet`: the stored envelope, each field base64 text. */
  datatype EncryptedWallet = EncryptedWallet(encryptedData: string, salt: string, iv: string)

  /** The object `encryptWallet` serialises with `JSON.stringify` and encrypts. */
  datatype SecretPayload = SecretPayload(mnemonic: string, nostrPrivateKey: Bytes, npub: string, nsec: string)

  /** The arguments of `crypto.subtle.deriveKey` that fix the derived key. */
  datatype KdfParams = KdfParams(name: string, iterations: nat, hash: string, cipher: string, keyLength: nat)

  /** The key-stretching parameters, the same in encryption and decryption
      (PBKDF2 of RFC 8018 section 5.2 with HMAC-SHA-256, for a 256-bit AES-GCM key). */
  const PBKDF2_PARAMS: KdfParams := KdfParams("PBKDF2", 100000, "SHA-256", "AES-GCM", 256)

  /** The library calls the module composes, one field per external function. */
  datatype Primitives = Primitives(
    // @scure/bip39: generateMnemonic(wordlist, strength) over the CSPRNG bytes it draws,
    // validateMnemonic and mnemonicToSeedSync
    generateMnemonic: (nat, Bytes) -> string,
    validateMnemonic: string -> bool,
    mnemonicToSeed: string -> Bytes,
    // @scure/bip32: HDKey.fromMasterSeed and HDKey.derive(path string)
    fromMasterSeed: Bytes -> HDKey,
    derive: (HDKey, string) -> HDKey,
    // nostr-tools: getPublicKey, nip19.npubEncode, nip19.nsecEncode
    getPublicKey: Bytes -> string,
    npubEncode: string -> string,
    nsecEncode: Bytes -> string,
    // WebCrypto: importKey + deriveKey, encrypt and decrypt (None: the call rejects)
    deriveKey: (KdfParams, Bytes, Bytes) -> Bytes,
    encrypt: (Bytes, Bytes, Bytes) -> Bytes,
    decrypt: (Bytes, Bytes, Bytes) -> Option<Bytes>,
    // built-ins: btoa, atob (Failure: the message of the exception it throws),
    // TextEncoder for the password, TextEncoder + JSON.stringify for the payload,
    // and TextDecoder + JSON.parse + `.mnemonic` (None: any of them throws)
    btoa: string -> string,
    atob: string -> Result<string, string>,
    encodeText: string -> Bytes,
    serializePayload: SecretPayload -> Bytes,
    readMnemonic: Bytes -> Option<string>)

  datatype CryptoError =
    | InvalidMnemonic
    | DecryptFailed
    | EnvelopeNotBase64(message: string)

  const INVALID_MNEMONIC_MESSAGE := "Invalid mnemonic phrase"
  const DECRYPT_FAILED_MESSAGE := "Failed to decrypt wallet - incorrect password"

  /** The `message` of the `Error` each failure throws. */
  function Message(e: CryptoError): string
  {
    match e
    case InvalidMnemonic => INVALID_MNEMONIC_MESSAGE
    case DecryptFailed => DECRYPT_FAILED_MESSAGE
    case EnvelopeNotBase64(m) => m
  }

  // ---------------------------------------------------------------------------
  // Mnemonic strength and derivation paths

  /** The BIP-39 entropy size `generateWallet` asks for: 128 bits for 12 words, 256 otherwise. */
  function MnemonicStrength(wordCount: int): (bits: nat)
    ensures bits == 128 || bits == 256
    ensures wordCount == 12 || wordCount == 24 ==> (bits + bits / 32) / 11 == wordCount
    ensures wordCount != 12 ==> bits == 256
  {
    if wordCount == 12 then 128 else 256
  }

  datatype PathLevel = PathLevel(index: nat, hardened: bool)

  const BIP44_PURPOSE: nat := 44
  const LIGHTNING_COIN: nat := 0
  const ECASH_COIN: nat := 1
  const NOSTR_COIN: nat := 1237
  const HARDENED_OFFSET: nat := 0x8000_0000

  /** A BIP-32 path the library accepts: every index below the hardened offset. */
  predicate ValidBip32Path(path: seq<PathLevel>)
  {
    forall i :: 0 <= i < |path| ==> path[i].index < HARDENED_OFFSET
  }

  /** The BIP-44 path `m/44'/coin'/0'/0/0`: account 0, external chain, first address. */
  function Bip44Path(coin: nat): (path: seq<PathLevel>)
    ensures |path| == 5 && path[1] == PathLevel(coin, true)
    ensures path[0].index == BIP44_PURPOSE && path[0].hardened && path[2].hardened
    ensures !path[3].hardened && !path[4].hardened
    ensures path[2].index == 0 && path[3].index == 0 && path[4].index == 0
    ensures coin < HARDENED_OFFSET ==> ValidBip32Path(path)
  {
    [PathLevel(BIP44_PURPOSE, true), PathLevel(coin, true), PathLevel(0, true), PathLevel(0, false), PathLevel(0, false)]
  }

  function DigitChar(d: nat): char
    requires d < 10
  {
    "0123456789"[d]
  }

  function NatToString(n: nat): string
  {
    if n < 10 then [DigitChar(n)] else NatToString(n / 10) + [DigitChar(n % 10)]
  }

  /** One level of a path: `/index`, with `'` when hardened. */
  function LevelText(level: PathLevel): string
  {
    "/" + NatToString(level.index) + (if level.hardened then "'" else "")
  }

  function LevelsString(path: seq<PathLevel>): string
  {
    if path == [] then "" else LevelText(path[0]) + LevelsString(path[1..])
  }

  /** The path text `HDKey.derive` parses. */
  function PathString(path: seq<PathLevel>): string
  {
    "m" + LevelsString(path)
  }

  /** The decimal text of the constant levels of a BIP-44 path. */
  lemma ConstantLevelTexts()
    ensures LevelText(PathLevel(BIP44_PURPOSE, true)) == "/44'"
    ensures LevelText(PathLevel(0, true)) == "/0'" && LevelText(PathLevel(0, false)) == "/0"
  {
    assert NatToString(BIP44_PURPOSE) == NatToString(4) + [DigitChar(4)];
  }

  /** The text of the account, change and address levels of a BIP-44 path. */
  lemma Bip44TailText(coin: nat)
    ensures LevelsString(Bip44Path(coin)[2..]) == "/0'/0/0"
  {
    var path := Bip44Path(coin);
    assert path[4..][1..] == [];
    assert LevelsString(path[4..]) == LevelText(path[4]) + "";
    assert path[3..][1..] == path[4..];
    assert LevelsString(path[3..]) == LevelText(path[3]) + LevelsString(path[4..]);
    assert path[2..][1..] == path[3..];
    assert LevelsString(path[2..]) == LevelText(path[2]) + LevelsString(path[3..]);
    ConstantLevelTexts();
  }

  /** The text of a BIP-44 path for every coin type: `m/44'/coin'/0'/0/0`. */
  lemma Bip44PathText(coin: nat)
    ensures PathString(Bip44Path(coin)) == "m/44'/" + NatToString(coin) + "'/0'/0/0"
  {
    var path := Bip44Path(coin);
    Bip44TailText(coin);
    ConstantLevelTexts();
    assert path[1..][1..] == path[2..];
    assert LevelsString(path[1..]) == LevelText(path[1]) + "/0'/0/0";
    assert LevelsString(path) == "/44'" + LevelsString(path[1..]);
    var n := NatToString(coin);
    assert LevelText(path[1]) == "/" + n + "'";
    assert PathString(path) == "m/44'" + (("/" + n + "'") + "/0'/0/0");
  }

  /** The decimal text of the Nostr coin type. */
  lemma NostrCoinText()
    ensures NatToString(NOSTR_COIN) == "1237"
  {
    assert NatToString(123) == NatToString(12) + [DigitChar(3)];
    assert NatToString(12) == NatToString(1) + [DigitChar(2)];
  }

  /** The three path texts written in the source are the BIP-44 paths for coin
      types 0 (Lightning), 1 (eCash) and 1237 (Nostr, as in NIP-06). */
  lemma DerivationPathStrings()
    ensures PathString(Bip44Path(LIGHTNING_COIN)) == "m/44'/0'/0'/0/0"
    ensures PathString(Bip44Path(ECASH_COIN)) == "m/44'/1'/0'/0/0"
    ensures PathString(Bip44Path(NOSTR_COIN)) == "m/44'/1237'/0'/0/0"
  {
    Bip44PathText(LIGHTNING_COIN);
    Bip44PathText(ECASH_COIN);
    Bip44PathText(NOSTR_COIN);
    NostrCoinText();
  }

  // ---------------------------------------------------------------------------
  // Generation and restoration

  /** Reference description of a wallet whose every key is derived from its
      mnemonic, written with the path texts of the source. */
  ghost predicate DerivedFrom(p: Primitives, w: WalletKeys)
  {
    && w.seed == p.mnemonicToSeed(w.mnemonic)
    && w.masterKey == p.fromMasterSeed(w.seed)
    && w.lightningKey == p.derive(w.masterKey, "m/44'/0'/0'/0/0")
    && w.ecashKey == p.derive(w.masterKey, "m/44'/1'/0'/0/0")
    && w.nostrPrivateKey == p.derive(w.masterKey, "m/44'/1237'/0'/0/0").privateKey
    && w.nostrPublicKey == p.getPublicKey(w.nostrPrivateKey)
    && w.npub == p.npubEncode(w.nostrPublicKey)
    && w.nsec == p.nsecEncode(w.nostrPrivateKey)
  }

  /** The seed -> master -> three paths -> Nostr identity pipeline that
      `generateWallet` and `restoreWallet` both run. */
  function DeriveKeys(p: Primitives, mnemonic: string): (w: WalletKeys)
    ensures w.mnemonic == mnemonic && DerivedFrom(p, w)
  {
    DerivationPathStrings();
    var seed := p.mnemonicToSeed(mnemonic);
    var masterKey := p.fromMasterSeed(seed);
    var lightningKey := p.derive(masterKey, PathString(Bip44Path(LIGHTNING_COIN)));
    var ecashKey := p.derive(masterKey, PathString(Bip44Path(ECASH_COIN)));
    var nostrPrivateKey := p.derive(masterKey, PathString(Bip44Path(NOSTR_COIN))).privateKey;
    var nostrPublicKey := p.getPublicKey(nostrPrivateKey);
    WalletKeys(seed, mnemonic, masterKey, lightningKey, ecashKey, nostrPrivateKey, nostrPublicKey,
               p.npubEncode(nostrPublicKey), p.nsecEncode(nostrPrivateKey))
  }

  /** All keys are fixed by the mnemonic: restoration reproduces them byte for byte. */
  lemma DerivationDeterministic(p: Primitives, w1: WalletKeys, w2: WalletKeys)
    requires DerivedFrom(p, w1) && DerivedFrom(p, w2)
    requires w1.mnemonic == w2.mnemonic
    ensures w1 == w2
  {
  }

  /** `generateWallet(wordCount)`: a fresh mnemonic of the chosen strength, drawn
      by the library from `random`, and its keys. */
  function GenerateWallet(p: Primitives, wordCount: int, random: Bytes): (w: WalletKeys)
    ensures w.mnemonic == p.generateMnemonic(MnemonicStrength(wordCount), random)
    ensures DerivedFrom(p, w)
  {
    var strength := MnemonicStrength(wordCount);
    DeriveKeys(p, p.generateMnemonic(strength, random))
  }

  /** `restoreWallet(mnemonic)`: rejects a phrase the BIP-39 check refuses, and
      otherwise rebuilds every key from the phrase, which it keeps as given. */
  function RestoreWallet(p: Primitives, mnemonic: string): (r: Result<WalletKeys, CryptoError>)
    ensures r.Failure? <==> !p.validateMnemonic(mnemonic)
    ensures r.Failure? ==> r.error == InvalidMnemonic
    ensures r.Success? ==> r.value.mnemonic == mnemonic && DerivedFrom(p, r.value)
  {
    if !p.validateMnemonic(mnemonic) then Failure(InvalidMnemonic)
    else Success(DeriveKeys(p, mnemonic))
  }

  /** BIP-39: every phrase `generateMnemonic` draws at a supported strength
      (128 or 256 bits of entropy) carries a valid checksum, so
      `validateMnemonic` accepts it. */
  ghost predicate GeneratedPhrasesValid(p: Primitives)
  {
    forall strength: nat, random: Bytes {:trigger p.generateMnemonic(strength, random)} ::
      strength == 128 || strength == 256 ==> p.validateMnemonic(p.generateMnemonic(strength, random))
  }

  /** Restoring the phrase of a generated wallet gives back that wallet. */
  lemma RestoreReproducesGenerated(p: Primitives, wordCount: int, random: Bytes)
    requires GeneratedPhrasesValid(p)
    ensures RestoreWallet(p, GenerateWallet(p, wordCount, random).mnemonic) == Success(GenerateWallet(p, wordCount, random))
  {
    var w := GenerateWallet(p, wordCount, random);
    DerivationDeterministic(p, RestoreWallet(p, w.mnemonic).value, w);
  }

  // ---------------------------------------------------------------------------
  // The encrypted envelope

  /** `String.fromCharCode(...bytes)`: one character per byte. */
  function Pack(bytes: Bytes): string
  {
    seq(|bytes|, i requires 0 <= i < |bytes| => (bytes[i] as int) as char)
  }

  /** `new Uint8Array(text.split('').map(c => c.charCodeAt(0)))`: one byte per
      character, taken modulo 256 as the typed-array conversion does. */
  function Unpack(text: string): Bytes
  {
    seq(|text|, i requires 0 <= i < |text| => ((text[i] as int) % 256) as Byte)
  }

  /** A string whose characters are all below 256, the only kind `btoa` accepts
      and `atob` returns. */
  predicate IsBinaryString(s: string)
  {
    forall i :: 0 <= i < |s| ==> s[i] as int < 256
  }

  /** Unpacking recovers the packed bytes, and packing yields a binary string. */
  lemma PackUnpack(bytes: Bytes)
    ensures IsBinaryString(Pack(bytes))
    ensures Unpack(Pack(bytes)) == bytes
  {
  }

  /** One envelope field: bytes packed to characters, then `btoa`. */
  function EncodeField(p: Primitives, bytes: Bytes): string
  {
    p.btoa(Pack(bytes))
  }

  /** Reading one envelope field back: `atob`, then one byte per character. */
  function DecodeField(p: Primitives, text: string): (r: Result<Bytes, CryptoError>)
    ensures r.Failure? <==> p.atob(text).Failure?
    ensures r.Failure? ==> r.error == EnvelopeNotBase64(p.atob(text).error)
  {
    match p.atob(text)
    case Success(binary) => Success(Unpack(binary))
    case Failure(message) => Failure(EnvelopeNotBase64(message))
  }

  /** RFC 4648 section 4: `atob` decodes what `btoa` encoded from a binary string. */
  ghost predicate Base64RoundTrip(p: Primitives)
  {
    forall s :: IsBinaryString(s) ==> p.atob(p.btoa(s)) == Success(s)
  }

  lemma FieldRoundTrip(p: Primitives, bytes: Bytes)
    requires Base64RoundTrip(p)
    ensures DecodeField(p, EncodeField(p, bytes)) == Success(bytes)
  {
    PackUnpack(bytes);
  }

  /** The AES-GCM key stretched from the password and a salt. */
  function StretchPassword(p: Primitives, password: string, salt: Bytes): Bytes
  {
    p.deriveKey(PBKDF2_PARAMS, p.encodeText(password), salt)
  }

  /** The fields of the wallet that go into the encrypted payload. */
  function Payload(w: WalletKeys): SecretPayload
  {
    SecretPayload(w.mnemonic, w.nostrPrivateKey, w.npub, w.nsec)
  }

  /** `encryptWallet(walletKeys, password)` with the salt and nonce it draws. The
      envelope decodes to exactly that salt and nonce and to the AES-GCM sealing
      of the payload under the key stretched from the password and that salt. */
  function EncryptWallet(p: Primitives, w: WalletKeys, password: string, salt: Salt, iv: Iv): (e: EncryptedWallet)
    ensures Base64RoundTrip(p) ==> DecodeField(p, e.salt) == Success(salt)
    ensures Base64RoundTrip(p) ==> DecodeField(p, e.iv) == Success(iv)
    ensures Base64RoundTrip(p) ==>
      DecodeField(p, e.encryptedData) == Success(p.encrypt(StretchPassword(p, password, salt), iv, p.serializePayload(Payload(w))))
  {
    var key := StretchPassword(p, password, salt);
    var ciphertext := p.encrypt(key, iv, p.serializePayload(Payload(w)));
    var e := EncryptedWallet(EncodeField(p, ciphertext), EncodeField(p, salt), EncodeField(p, iv));
    assert Base64RoundTrip(p) ==>
      && DecodeField(p, e.salt) == Success(salt)
      && DecodeField(p, e.iv) == Success(iv)
      && DecodeField(p, e.encryptedData) == Success(ciphertext)
    by {
      if Base64RoundTrip(p) {
        FieldRoundTrip(p, salt);
        FieldRoundTrip(p, iv);
        FieldRoundTrip(p, ciphertext);
      }
    }
    e
  }

  /** The payload holds the mnemonic, the Nostr private key bytes, npub and nsec
      and nothing else: the envelope does not depend on the seed, the master
      key, the Lightning or eCash keys or the raw Nostr public key. */
  lemma EnvelopeOmitsDerivedKeys(p: Primitives, w1: WalletKeys, w2: WalletKeys, password: string, salt: Salt, iv: Iv)
    requires w1.mnemonic == w2.mnemonic && w1.nostrPrivateKey == w2.nostrPrivateKey
    requires w1.npub == w2.npub && w1.nsec == w2.nsec
    ensures EncryptWallet(p, w1, password, salt, iv) == EncryptWallet(p, w2, password, salt, iv)
  {
  }

  /** The part of `decryptWallet` inside its `try`: AES-GCM decryption, JSON
      parsing and restoration, every failure of which becomes one error. */
  function OpenPlaintext(p: Primitives, key: Bytes, iv: Bytes, ciphertext: Bytes): (r: Result<WalletKeys, CryptoError>)
    ensures r.Failure? ==> r.error == DecryptFailed
    ensures r.Success? <==>
      && p.decrypt(key, iv, ciphertext).Some?
      && p.readMnemonic(p.decrypt(key, iv, ciphertext).value).Some?
      && p.validateMnemonic(p.readMnemonic(p.decrypt(key, iv, ciphertext).value).value)
    ensures r.Success? ==> r == RestoreWallet(p, p.readMnemonic(p.decrypt(key, iv, ciphertext).value).value)
  {
    match p.decrypt(key, iv, ciphertext)
    case None => Failure(DecryptFailed)
    case Some(plaintext) =>
      match p.readMnemonic(plaintext)
      case None => Failure(DecryptFailed)
      case Some(mnemonic) =>
        match RestoreWallet(p, mnemonic)
        case Success(w) => Success(w)
        case Failure(_) => Failure(DecryptFailed)
  }

  /** `decryptWallet(encryptedWallet, password)`. A field that is not base64
      fails before the `try` with `atob`'s own error; every later failure is
      the single decryption error, never the invalid-mnemonic one; a success is
      rebuilt from the recovered mnemonic alone. */
  function DecryptWallet(p: Primitives, e: EncryptedWallet, password: string): (r: Result<WalletKeys, CryptoError>)
    ensures r.Failure? ==> r.error == DecryptFailed || r.error.EnvelopeNotBase64?
    ensures (r.Failure? && r.error.EnvelopeNotBase64?) <==>
      p.atob(e.salt).Failure? || p.atob(e.iv).Failure? || p.atob(e.encryptedData).Failure?
    ensures p.atob(e.salt).Failure? ==> r == Failure(EnvelopeNotBase64(p.atob(e.salt).error))
    ensures p.atob(e.salt).Success? && p.atob(e.iv).Failure? ==> r == Failure(EnvelopeNotBase64(p.atob(e.iv).error))
    ensures p.atob(e.salt).Success? && p.atob(e.iv).Success? && p.atob(e.encryptedData).Failure? ==>
      r == Failure(EnvelopeNotBase64(p.atob(e.encryptedData).error))
    ensures p.atob(e.salt).Success? && p.atob(e.iv).Success? && p.atob(e.encryptedData).Success? ==>
      r == OpenPlaintext(p, StretchPassword(p, password, Unpack(p.atob(e.salt).value)),
                         Unpack(p.atob(e.iv).value), Unpack(p.atob(e.encryptedData).value))
    ensures r.Success? ==> p.validateMnemonic(r.value.mnemonic) && DerivedFrom(p, r.value)
  {
    var salt :- DecodeField(p, e.salt);
    var iv :- DecodeField(p, e.iv);
    var ciphertext :- DecodeField(p, e.encryptedData);
    OpenPlaintext(p, StretchPassword(p, password, salt), iv, ciphertext)
  }

  /** Decrypting an envelope stretches the attempted password with the same
      PBKDF2 parameters and the very salt the envelope was sealed with, and
      opens the sealed ciphertext under the stored nonce. */
  lemma DecryptUsesSealingParameters(p: Primitives, w: WalletKeys, password: string, attempt: string, salt: Salt, iv: Iv)
    requires Base64RoundTrip(p)
    ensures DecryptWallet(p, EncryptWallet(p, w, password, salt, iv), attempt)
      == OpenPlaintext(p, StretchPassword(p, attempt, salt), iv,
                       p.encrypt(StretchPassword(p, password, salt), iv, p.serializePayload(Payload(w))))
  {
  }

  /** NIST SP 800-38D: decryption under the sealing key and nonce returns the plaintext. */
  ghost predicate CipherRoundTrip(p: Primitives)
  {
    forall key, iv, m :: p.decrypt(key, iv, p.encrypt(key, iv, m)) == Some(m)
  }

  /** JSON.parse of the stringified payload has the mnemonic that was written. */
  ghost predicate PayloadRoundTrip(p: Primitives)
  {
    forall payload :: p.readMnemonic(p.serializePayload(payload)) == Some(payload.mnemonic)
  }

  /** The authentication tag rejects a key other than the sealing one. */
  ghost predicate WrongKeyRejected(p: Primitives)
  {
    forall k1, k2, iv, m :: k1 != k2 ==> p.decrypt(k2, iv, p.encrypt(k1, iv, m)).None?
  }

  /** Distinct passwords stretch to distinct keys under one salt. */
  ghost predicate PasswordsSeparated(p: Primitives)
  {
    forall pw1, pw2, salt :: pw1 != pw2 ==> StretchPassword(p, pw1, salt) != StretchPassword(p, pw2, salt)
  }

  /** Unlocking with the password an envelope was sealed under gives back the
      wallet that was sealed, re-derived from its mnemonic. */
  lemma DecryptRecoversWallet(p: Primitives, w: WalletKeys, password: string, salt: Salt, iv: Iv)
    requires Base64RoundTrip(p) && CipherRoundTrip(p) && PayloadRoundTrip(p)
    requires DerivedFrom(p, w) && p.validateMnemonic(w.mnemonic)
    ensures DecryptWallet(p, EncryptWallet(p, w, password, salt, iv), password) == Success(w)
  {
    var e := EncryptWallet(p, w, password, salt, iv);
    var key := StretchPassword(p, password, salt);
    var plaintext := p.serializePayload(Payload(w));
    assert p.decrypt(key, iv, p.encrypt(key, iv, plaintext)) == Some(plaintext);
    assert p.readMnemonic(plaintext) == Some(w.mnemonic);
    DerivationDeterministic(p, RestoreWallet(p, w.mnemonic).value, w);
  }

  /** Unlocking with any other password fails with the generic decryption error. */
  lemma DecryptRejectsWrongPassword(p: Primitives, w: WalletKeys, password: string, other: string, salt: Salt, iv: Iv)
    requires Base64RoundTrip(p) && WrongKeyRejected(p) && PasswordsSeparated(p)
    requires other != password
    ensures DecryptWallet(p, EncryptWallet(p, w, password, salt, iv), other) == Failure(DecryptFailed)
  {
    var key := StretchPassword(p, password, salt);
    var otherKey := StretchPassword(p, other, salt);
    assert key != otherKey;
    var plaintext := p.serializePayload(Payload(w));
    assert p.decrypt(otherKey, iv, p.encrypt(key, iv, plaintext)).None?;
  }

  // ---------------------------------------------------------------------------
  // Random passwords

  const PASSWORD_ALPHABET: string := "ABCDEFGHIJKLMNOPQRSTUVWXYZabcdefghijklmnopqrstuvwxyz0123456789!@#$%^&*"
  const DEFAULT_PASSWORD_LENGTH: nat := 32
  /** `crypto.getRandomValues` throws a QuotaExceededError above this many bytes. */
  const RANDOM_VALUES_QUOTA: nat := 65536

  /** `crypto.getRandomValues(buffer)`: fills the buffer in place from the
      CSPRNG's output `random`, or refuses a buffer over the quota and leaves it. */
  method GetRandomValues(buffer: array<Byte>, random: Bytes) returns (ok: bool)
    requires buffer.Length <= |random|
    modifies buffer
    ensures ok <==> buffer.Length <= RANDOM_VALUES_QUOTA
    ensures ok ==> buffer[..] == random[..buffer.Length]
    ensures !ok ==> buffer[..] == old(buffer[..])
  {
    if buffer.Length > RANDOM_VALUES_QUOTA {
      return false;
    }
    forall i | 0 <= i < buffer.Length {
      buffer[i] := random[i];
    }
    return true;
  }

  /** `generateSecurePassword(length)`: character i is the alphabet entry at
      random byte i modulo 70; None when getRandomValues refuses the length. */
  method GenerateSecurePassword(length: nat, random: Bytes) returns (r: Option<string>)
    requires length <= |random|
    ensures r.None? <==> length > RANDOM_VALUES_QUOTA
    ensures r.Some? ==> |r.value| == length
    ensures r.Some? ==> forall i :: 0 <= i < length ==>
      r.value[i] == PASSWORD_ALPHABET[random[i] as int % |PASSWORD_ALPHABET|]
    ensures r.Some? ==> forall i :: 0 <= i < length ==> r.value[i] in PASSWORD_ALPHABET
  {
    var buffer := new Byte[length];
    var ok := GetRandomValues(buffer, random);
    if !ok {
      return None;
    }
    var password := "";
    var i := 0;
    while i < buffer.Length
      invariant 0 <= i <= buffer.Length
      invariant |password| == i
      invariant forall k :: 0 <= k < i ==> password[k] == PASSWORD_ALPHABET[buffer[k] as int % |PASSWORD_ALPHABET|]
    {
      password := password + [PASSWORD_ALPHABET[buffer[i] as int % |PASSWORD_ALPHABET|]];
      i := i + 1;
    }
    assert forall k :: 0 <= k < length ==> buffer[k] == random[k] by {
      assert forall k :: 0 <= k < length ==> buffer[..][k] == buffer[k];
    }
    return Some(password);
  }

  /** `generateSecurePassword()` with its default length of 32. */
  method GenerateDefaultPassword(random: Bytes) returns (r: Option<string>)
    requires DEFAULT_PASSWORD_LENGTH <= |random|
    ensures r.Some? && |r.value| == DEFAULT_PASSWORD_LENGTH
    ensures forall i :: 0 <= i < DEFAULT_PASSWORD_LENGTH ==>
      r.value[i] == PASSWORD_ALPHABET[random[i] as int % |PASSWORD_ALPHABET|]
  {
    r := GenerateSecurePassword(DEFAULT_PASSWORD_LENGTH, random);
  }
}
