# A verified model of the nostr-cashu-flow wallet core

This project models the part of the browser wallet that owns the keys. It covers:

- how a wallet's keys are derived from a BIP-39 mnemonic by BIP-32/BIP-44 derivation, with the Nostr identity as in NIP-06 and NIP-19;
- how the secret part is sealed in a password-protected envelope: PBKDF2 (RFC 8018 section 5.2) stretches the password into an AES-GCM key (NIST SP 800-38D), and each field of the envelope is base64 text (RFC 4648 section 4);
- how the envelope and the preferences are kept in one `localStorage` record;
- how the setup screen (create, confirm, restore), the unlock screen and the page that switches between them drive those operations.

The libraries are not modelled. Each one is a field of `Crypto.Primitives`: BIP-39, BIP-32, secp256k1, NIP-19 bech32, WebCrypto, `btoa`/`atob`, `TextEncoder` and JSON. Every primitive is a total function the model knows nothing about. So each theorem holds for every implementation of them. A result that depends on a library's promise names that promise, as a ghost predicate, in its `requires`. There are six such promises:

- `Base64RoundTrip`: `atob` decodes what `btoa` encoded;
- `CipherRoundTrip`: AES-GCM opens what it sealed;
- `WrongKeyRejected`: AES-GCM rejects a wrong key;
- `PasswordsSeparated`: PBKDF2 is collision-free on one salt;
- `PayloadRoundTrip`: JSON gives back the mnemonic it wrote;
- `GeneratedPhrasesValid`: BIP-39 accepts every phrase it generates at 128 or 256 bits.

Randomness is an argument, never a hidden effect:

- the salt is a 32-byte `Salt`;
- the nonce is a 12-byte `Iv`;
- mnemonic generation gets the entropy bytes the library would draw;
- `GetRandomValues` copies the generator's output into an array.

Layout, one module per source file:

- `wrappers.dfy`: `Option`, `Result` and `Outcome`.
- `js_string.dfy`: the JavaScript `length` (UTF-16 code units) and `trim`.
- `crypto.dfy`: `src/lib/crypto.ts`. Key derivation, the envelope, decryption and password generation.
- `storage.dfy`: `src/lib/storage.ts`. The `WalletStore` class is `localStorage`, a map from keys to stored text. The text can be empty, unparsable or a JSON record.
- `notice.dfy`: toasts, as records.
- `wallet_setup.dfy`: `src/components/WalletSetup.tsx`. The `WalletSetup` class holds the component's state hooks. Its handlers are methods.
- `wallet_login.dfy`: `src/components/WalletLogin.tsx`, as the `WalletLogin` class.
- `index_page.dfy`: `src/pages/Index.tsx`. A pure render rule and the `Index` class with its two state fields.
- `scenarios.dfy`: the screens working together over one storage, and the finding below.

Each callback a component receives (`onWalletCreated`, `onWalletUnlocked`) becomes the method's returned wallet. `None` means the callback is not called. The `isCreating` and `isUnlocking` flags each keep a ghost trace of every value they were set to. That trace lets contracts say "set true, then false".

Two details of the code that the model keeps as written:

- Every derivation path is `m/44'/c'/0'/0/0`. As BIP-44 prescribes, the purpose, coin and account levels are hardened, and the change and address levels are not. `Crypto.Bip44Path`, `Crypto.Bip44PathText` and `Crypto.DerivationPathStrings` state these paths.
- The restore screen asks for no password length. `Setup.WalletSetup.HandleRestoreWallet` follows the code's checks, and Findings shows where that leads.

## Model

| member | source | states |
|---|---|---|
| JsString.Utf16Length | src/components/WalletSetup.tsx:34 | `password.length` counts UTF-16 code units: one per character plus one more for each character outside the Basic Multilingual Plane, so between one and two per character |
| JsString.Trim | src/components/WalletSetup.tsx:96 | `trim()` gives a slice of the input. The slice neither starts nor ends with white space, and every character cut off is ECMAScript white space or a line terminator. It is empty exactly when the input is all white space |
| Crypto.MnemonicStrength | src/lib/crypto.ts:29-31 | 128 bits of entropy for 12 words and 256 for anything else. For 12 and 24 words, BIP-39's word count (entropy plus checksum bits, divided by 11) is the one asked for |
| Crypto.Bip44Path | src/lib/crypto.ts:36-43 | the path `m/44'/coin'/0'/0/0`: purpose 44, the coin, then account, change and address index 0. Purpose, coin and account levels are hardened, and change and address levels are not. It is a valid BIP-32 path when the coin index is below 2^31 |
| Crypto.Bip44PathText | src/lib/crypto.ts:37-43 | for every coin type, the text of its BIP-44 path is `m/44'/` followed by the coin's decimal digits and `'/0'/0/0` |
| Crypto.DerivationPathStrings | src/lib/crypto.ts:37-43 | the three path strings written in the code are the BIP-44 paths for coin types 0 (Lightning), 1 (eCash) and 1237 (Nostr) |
| Crypto.DeriveKeys | src/lib/crypto.ts:32-48 | the pipeline keeps the mnemonic given and derives every other field from it: seed, master key, the three path keys, the Nostr key pair, `npub` and `nsec` from the 1237 key |
| Crypto.DerivationDeterministic | src/lib/crypto.ts:71-82 | two wallets derived from the same mnemonic are equal in every field |
| Crypto.GenerateWallet | src/lib/crypto.ts:29-61 | the wallet's mnemonic is the library's phrase for the chosen strength and entropy, and all its keys are derived from that phrase |
| Crypto.RestoreWallet | src/lib/crypto.ts:66-95 | fails, with the invalid-mnemonic error only, exactly when the BIP-39 check refuses the phrase. Otherwise it keeps the phrase as given and derives every key from it |
| Crypto.RestoreReproducesGenerated | src/lib/crypto.ts:29-95 | given that BIP-39 accepts the phrases it generates, restoring a generated wallet's phrase gives back that same wallet |
| Crypto.PackUnpack | src/lib/crypto.ts:140-152 | `String.fromCharCode` over bytes yields characters below 256, and `charCodeAt` into a `Uint8Array` recovers the bytes |
| Crypto.DecodeField | src/lib/crypto.ts:150-152 | reading a field fails exactly when `atob` throws, and the error carries `atob`'s own message |
| Crypto.FieldRoundTrip | src/lib/crypto.ts:139-152 | given a base64 round trip, decoding an encoded field gives back its bytes |
| Crypto.EncryptWallet | src/lib/crypto.ts:100-144 | the envelope decodes to exactly the 32-byte salt and 12-byte nonce drawn. Its ciphertext decodes to the AES-GCM sealing of the payload under the key stretched from the password with PBKDF2, 100000 iterations, SHA-256 and a 256-bit AES-GCM key |
| Crypto.EnvelopeOmitsDerivedKeys | src/lib/crypto.ts:126-131 | the envelope depends on the mnemonic, the Nostr private key, `npub` and `nsec` only. It does not depend on the seed, the master, Lightning or eCash keys, or the Nostr public key |
| Crypto.OpenPlaintext | src/lib/crypto.ts:175-188 | every failure inside the `try` (decrypt, JSON parse, restore) is the one decryption error. Success happens exactly when all three succeed, and the result is `restoreWallet` of the recovered mnemonic |
| Crypto.DecryptWallet | src/lib/crypto.ts:149-189 | a failure is either the decryption error or `atob`'s error. The `atob` error happens exactly when some envelope field is not base64, and it is the salt's error first, then the nonce's, then the ciphertext's. When all three fields decode, the result is `OpenPlaintext` under the key stretched from the attempted password with the decoded salt, the decoded nonce and the decoded ciphertext. A success is a wallet rebuilt from a valid mnemonic |
| Crypto.DecryptUsesSealingParameters | src/lib/crypto.ts:149-173 | decryption stretches the attempted password with the same PBKDF2 parameters and the salt the envelope was sealed with, and opens the sealed ciphertext under the stored nonce |
| Crypto.DecryptRecoversWallet | src/lib/crypto.ts:100-189 | decrypting an envelope with the password it was sealed under gives back the sealed wallet |
| Crypto.DecryptRejectsWrongPassword | src/lib/crypto.ts:175-188 | decrypting it with any other password fails with the generic error "Failed to decrypt wallet - incorrect password" |
| Crypto.GetRandomValues | src/lib/crypto.ts:196-197 | a buffer of at most 65536 bytes is filled in place with the generator's output. A larger one is refused and left as it was |
| Crypto.GenerateSecurePassword | src/lib/crypto.ts:194-199 | the password has the requested length, and character i is the alphabet entry at random byte i modulo 70, so every character is in the 70-character alphabet. Lengths over the quota fail |
| Crypto.GenerateDefaultPassword | src/lib/crypto.ts:194 | called with no length, the generator always succeeds with a 32-character password drawn from the alphabet by the same byte-modulo-70 rule |
| Storage.MergePreferences | src/lib/storage.ts:68 | each preference the update supplies wins, and each one it leaves out keeps its current value |
| Storage.MergeIdempotent | src/lib/storage.ts:68 | applying the same update twice is applying it once |
| Storage.MergeFullUpdate | src/lib/storage.ts:68 | an update that supplies every field replaces the preferences outright |
| Storage.WalletStore.Load | src/lib/storage.ts:29-39 | a record loads exactly when the key holds parsable JSON. An absent key, the empty string and unparsable text all load as nothing |
| Storage.WalletStore.HasStoredWallet | src/lib/storage.ts:51-54 | true exactly when a record loads and carries an envelope |
| Storage.WalletStore.GetPreferences | src/lib/storage.ts:75-82 | the stored preferences, or privacy on, speed off and sats when nothing loads |
| Storage.WalletStore.Save | src/lib/storage.ts:18-24 | a successful write replaces only the entry under `bitcoin_wallet_storage`, which then loads as the saved record. A refused write fails with "Failed to save wallet data to storage" and changes nothing |
| Storage.WalletStore.Clear | src/lib/storage.ts:44-46 | removes only the key. Afterwards nothing loads, no wallet is stored and the preferences are the defaults |
| Storage.WalletStore.UpdatePreferences | src/lib/storage.ts:59-70 | the new record is the old one, or the defaults, with only the supplied preferences changed. The envelope and backup time are kept, so a fresh record has no envelope. Other keys are untouched, and a refused write changes nothing |
| Setup.NewWalletRecord | src/components/WalletSetup.tsx:71-78 | the saved record holds the new envelope, the default preferences and no backup time |
| Setup.CreateRejection | src/components/WalletSetup.tsx:25-41 | a mismatch is reported first. A matching password shorter than 8 UTF-16 units is reported next. Only a matching password of 8 or more passes |
| Setup.RestoreRejectionAsWritten | src/components/WalletSetup.tsx:96-112 | as the code is written: a blank phrase is reported first, then a mismatch, and any matching password passes, the empty one included |
| Setup.RestoreRejection | src/components/WalletSetup.tsx:96-112 | the corrected restore checks: a blank phrase is reported first, then exactly the create checks. It accepts only what the as-written checks accept |
| Setup.AcceptedPasswordsNonEmpty | src/components/WalletSetup.tsx:25-41 | every password the create checks, or the corrected restore checks, let through is non-empty |
| Setup.RestoreAttempt | src/components/WalletSetup.tsx:116-140 | restore succeeds exactly when the trimmed phrase is valid and storage accepts the write. The wallet keeps that phrase. Otherwise the message is "Invalid mnemonic phrase" or the storage error |
| Setup.WalletSetup.constructor | src/components/WalletSetup.tsx:16-22 | the initial state: not busy, empty fields, create mode, no phrase shown |
| Setup.WalletSetup.Back | src/components/WalletSetup.tsx:181-187 | "Back" hides the recovery phrase |
| Setup.WalletSetup.HandleCreateWallet | src/components/WalletSetup.tsx:24-64 | a rejection shows the check's message and changes nothing else. Success shows the phrase of a 12-word wallet and raises then lowers the busy flag. Storage is never touched |
| Setup.WalletSetup.HandleConfirmWallet | src/components/WalletSetup.tsx:66-93 | the wallet is handed on exactly when re-deriving the shown phrase and saving both succeed. The record saved is the envelope under the entered password with the drawn salt and nonce. Any failure shows "Failed to secure wallet" and saves nothing |
| Setup.WalletSetup.TryRestore | src/components/WalletSetup.tsx:116-140 | the outcome of `RestoreAttempt`: the record is saved and the wallet handed on, or the thrown error's message is shown and nothing is saved |
| Setup.WalletSetup.RunRestore | src/components/WalletSetup.tsx:114-143 | the busy flag is raised before the attempt and lowered after it, whatever the outcome |
| Setup.WalletSetup.HandleRestoreWallet | src/components/WalletSetup.tsx:95-144 | an input the code's checks (`RestoreRejectionAsWritten`) reject shows the check's message, saves nothing and leaves the busy flag alone. Otherwise, the empty password included, the trimmed phrase is restored as in `TryRestore`, inside a raised and lowered busy flag |
| Setup.WalletSetup.HandleRestoreWalletCorrected | src/components/WalletSetup.tsx:95-144 | the same handler with the corrected checks (`RestoreRejection`): a password the create screen would refuse is reported and nothing is saved |
| Login.UnlockGate | src/components/WalletLogin.tsx:19-26 | exactly the empty password is refused, with "Please enter your password" |
| Login.UnlockAttempt | src/components/WalletLogin.tsx:30-47 | with no record or no envelope the result is "No wallet found" and decryption is not reached. Otherwise it succeeds exactly when decryption does, with its wallet, and a failure shows decryption's message unchanged |
| Login.UnlockFailuresCollapse | src/components/WalletLogin.tsx:36-47 | once the envelope's fields are base64, every unlock failure reads "Failed to decrypt wallet - incorrect password" |
| Login.WalletLogin.constructor | src/components/WalletLogin.tsx:15-16 | empty password, not busy |
| Login.WalletLogin.HandleUnlock | src/components/WalletLogin.tsx:18-52 | an empty password is refused before storage is read or the busy flag is raised. Otherwise the flag goes up and then down, and the wallet is handed on exactly when `UnlockAttempt` succeeds. Storage is never written |
| Login.WalletLogin.HandleKeyPress | src/components/WalletLogin.tsx:54-58 | Enter runs exactly the unlock, and any other key changes nothing |
| IndexPage.ScreenFor | src/pages/Index.tsx:27-53 | loading while the storage check has not run, whatever the wallet. Then the dashboard when a wallet is held, and otherwise login or setup as a wallet is stored or not |
| IndexPage.Index.constructor | src/pages/Index.tsx:9-10 | the first render shows the loading screen |
| IndexPage.Index.Mount | src/pages/Index.tsx:12-15 | `hasWallet` becomes `hasStoredWallet()`, so with no wallet held the screen is login or setup |
| IndexPage.Index.HandleWalletCreated | src/pages/Index.tsx:17-20 | holds the wallet, records that one is stored, and shows the dashboard |
| IndexPage.Index.HandleWalletUnlocked | src/pages/Index.tsx:22-24 | holds the wallet and leaves `hasWallet` alone |
| Scenarios.CreateAndSave | src/components/WalletSetup.tsx:24-93 | over empty storage the page shows setup. Creating and confirming a wallet stores its envelope and shows the dashboard with the generated wallet |
| Scenarios.ReloadAndUnlock | src/components/WalletLogin.tsx:18-52 | after a reload, the page shows login for a stored envelope, and the sealing password unlocks the sealed wallet onto the dashboard |
| Scenarios.CreateReloadUnlock | src/pages/Index.tsx:8-53 | create, confirm, reload and unlock with the same password ends on the dashboard with the generated wallet |
| Scenarios.WrongPasswordUnlock | src/components/WalletLogin.tsx:18-52 | a wrong, non-empty password hands on no wallet, shows the generic decryption message and leaves the stored record as it was |
| Scenarios.RestoreAsWrittenLocksOut | src/components/WalletSetup.tsx:95-112 | as written, restore accepts the empty password. The wallet then sealed under it can never be unlocked: the login gate refuses "", and every other password fails to decrypt |
| Scenarios.RestoreBlankPasswordLocksOut | src/components/WalletSetup.tsx:95-144 | the as-written restore screen, given a valid phrase and both password fields blank, saves a wallet sealed under the empty password. Over that storage the unlock screen then hands on no wallet for any attempt |
| Scenarios.SetupPasswordsUnlock | src/components/WalletSetup.tsx:25-41 | with the corrected checks, every password either setup path accepts passes the login gate and unlocks the wallet it sealed |

## Left out

- The BIP-39, BIP-32, secp256k1 and NIP-19 libraries, WebCrypto, `btoa`/`atob`, `TextEncoder`/`TextDecoder` and JSON are foreign code. They are parameters (`Crypto.Primitives`), and their promises are the hypotheses named above.
- The promises are idealised. `PasswordsSeparated` treats PBKDF2 as collision-free, and `WrongKeyRejected` treats the AES-GCM tag as never accepting a wrong key. Both hold only with overwhelming probability.
- The WebCrypto key-usage flags (`['encrypt']`, `['decrypt']`) and the non-extractable flag are not modelled. They do not change the derived key.
- async/await and concurrency. Each handler runs to completion before the next. Pressing Enter again while an unlock is in flight is not modelled.
- Toasts are kept as a list of records. Rendering, JSX, the mnemonic word grid and the disabled state of the submit button are not modelled. Switching between create and restore mode is a plain field with no method of its own.
- The "Failed to create wallet" branch of `handleCreateWallet` is not modelled. The primitives are total, so generation cannot throw.
- `privateKey!` on the Nostr key is taken to be present. `HDKey` always carries a private key here.
- `JSON.parse` of a value that is not a wallet record, or of a record with missing fields, is not modelled. Stored text is empty, unparsable or a well-formed record. The `console.error` call on a parse failure is not modelled either.
- A `Partial` update that sets a field explicitly to `undefined` is not modelled. An update either supplies a field or leaves it out.
- `localStorage.removeItem` is taken never to throw, and reads never to throw.
- `atob` is taken to produce characters below 256 only, as the standard requires. A `Uint8Array` also truncates larger code units modulo 256, and that truncation is modelled.
- The spread argument limit of `String.fromCharCode(...bytes)`, which could throw for very large ciphertexts, is not modelled.
- Crypto.GenerateSecurePassword: the length is a natural number covered by the supplied random bytes. The `RangeError` that `new Uint8Array` throws for a negative or fractional length in JavaScript is not modelled.
- src/components/WalletBalance.tsx (floating-point and locale formatting), src/components/WalletDashboard.tsx (display stubs) and src/components/FeatureStatus.tsx (static data) are not part of this model.

## Findings

| source | as written | input that shows it | evidently intended | confidence | as-written member | corrected member |
|---|---|---|---|---|---|---|
| src/components/WalletSetup.tsx:95-112 | restore checks only that the phrase is non-blank and that the two password fields match, with no minimum length | a valid recovery phrase with both password fields left empty: the wallet is sealed under the empty password, and the unlock screen refuses the empty password, so the stored wallet can never be unlocked | the create screen's rule, a matching password of at least 8 characters | medium, not executed (assumes the browser's PBKDF2 accepts an empty password) | Scenarios.RestoreBlankPasswordLocksOut | Setup.WalletSetup.HandleRestoreWalletCorrected |

`Setup.RestoreRejectionAsWritten` models the code's checks, and `Setup.WalletSetup.HandleRestoreWallet` runs them as the code does. `Scenarios.RestoreAsWrittenLocksOut` states the lock-out for the checks alone, and `Scenarios.RestoreBlankPasswordLocksOut` runs it through both screens. `Setup.WalletSetup.HandleRestoreWalletCorrected` runs the corrected checks `Setup.RestoreRejection`, and `Scenarios.SetupPasswordsUnlock` proves that every password either corrected setup path accepts unlocks the wallet it sealed.
