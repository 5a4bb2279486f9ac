/** The screens working together over one storage, and the consequence of the
    restore screen's missing password rule. */
module Scenarios {
  import opened Wrappers
  import opened JsString
  import opened Crypto
  import opened Storage
  import opened Setup
  import opened Login
  import opened IndexPage

  /** The first visit: the page shows setup over empty storage; the user
      creates a wallet, confirms it, and storage then holds its envelope. */
  method CreateAndSave(p: Primitives, random: Bytes, salt: Salt, iv: Iv, password: string)
    returns (store: WalletStore, created: Option<WalletKeys>, firstScreen: Screen, lastScreen: Screen)
    requires GeneratedPhrasesValid(p)
    requires CreateRejection(password, password).None?
    ensures fresh(store)
    ensures firstScreen == IndexPage.Setup
    ensures created == Some(GenerateWallet(p, CREATE_WORD_COUNT, random))
    ensures lastScreen == Dashboard(created.value)
    ensures store.Load() == Some(NewWalletRecord(EncryptWallet(p, created.value, password, salt, iv)))
  {
    var generated := GenerateWallet(p, CREATE_WORD_COUNT, random);
    store := new WalletStore(map[], true);
    var index := new Index(store);
    index.Mount();
    firstScreen := index.CurrentScreen();

    var setup := new WalletSetup(store);
    setup.password, setup.confirmPassword := password, password;
    setup.HandleCreateWallet(p, random);
    RestoreReproducesGenerated(p, CREATE_WORD_COUNT, random);
    created := setup.HandleConfirmWallet(p, salt, iv);
    index.HandleWalletCreated(created.value);
    lastScreen := index.CurrentScreen();
  }

  /** A later visit: the page finds the stored wallet and shows login, and the
      password that sealed the envelope unlocks the same wallet. */
  method ReloadAndUnlock(p: Primitives, store: WalletStore, w: WalletKeys, salt: Salt, iv: Iv, password: string)
    returns (unlocked: Option<WalletKeys>, firstScreen: Screen, lastScreen: Screen)
    requires Base64RoundTrip(p) && CipherRoundTrip(p) && PayloadRoundTrip(p)
    requires DerivedFrom(p, w) && p.validateMnemonic(w.mnemonic) && password != ""
    requires store.Load() == Some(NewWalletRecord(EncryptWallet(p, w, password, salt, iv)))
    ensures unlocked == Some(w)
    ensures firstScreen == IndexPage.Login && lastScreen == Dashboard(w)
  {
    var index := new Index(store);
    index.Mount();
    firstScreen := index.CurrentScreen();
    var login := new WalletLogin(store);
    login.password := password;
    DecryptRecoversWallet(p, w, password, salt, iv);
    unlocked := login.HandleUnlock(p);
    index.HandleWalletUnlocked(unlocked.value);
    lastScreen := index.CurrentScreen();
  }

  /** Create, confirm, reload and unlock with the same password: the unlocked
      wallet is the generated one and the dashboard shows it. */
  method CreateReloadUnlock(p: Primitives, random: Bytes, salt: Salt, iv: Iv, password: string)
    returns (unlocked: Option<WalletKeys>, screen: Screen)
    requires Base64RoundTrip(p) && CipherRoundTrip(p) && PayloadRoundTrip(p)
    requires GeneratedPhrasesValid(p)
    requires CreateRejection(password, password).None?
    ensures unlocked == Some(GenerateWallet(p, CREATE_WORD_COUNT, random))
    ensures screen == Dashboard(GenerateWallet(p, CREATE_WORD_COUNT, random))
  {
    var store, created, _, _ := CreateAndSave(p, random, salt, iv, password);
    AcceptedPasswordsNonEmpty("", password, password);
    var loginScreen;
    unlocked, loginScreen, screen := ReloadAndUnlock(p, store, created.value, salt, iv, password);
  }

  /** Unlocking with a wrong password: the generic decryption message, no
      wallet, and the stored record untouched. */
  method WrongPasswordUnlock(p: Primitives, w: WalletKeys, salt: Salt, iv: Iv, password: string, attempt: string)
    returns (unlocked: Option<WalletKeys>, message: string, storedAfter: Option<WalletStorage>)
    requires Base64RoundTrip(p) && WrongKeyRejected(p) && PasswordsSeparated(p)
    requires attempt != "" && attempt != password
    ensures unlocked.None? && message == DECRYPT_FAILED_MESSAGE
    ensures storedAfter == Some(NewWalletRecord(EncryptWallet(p, w, password, salt, iv)))
  {
    var record := NewWalletRecord(EncryptWallet(p, w, password, salt, iv));
    var store := new WalletStore(map[STORAGE_KEY := Json(record)], true);
    var login := new WalletLogin(store);
    login.password := attempt;
    DecryptRejectsWrongPassword(p, w, password, attempt, salt, iv);
    unlocked := login.HandleUnlock(p);
    message := login.toasts[|login.toasts| - 1].description;
    storedAfter := store.Load();
  }

  /** As written, the restore checks accept an empty password (both fields
      left blank), and the wallet then saved can never be unlocked: the login
      gate refuses the empty password and every other password fails to decrypt. */
  lemma RestoreAsWrittenLocksOut(p: Primitives, phrase: string, w: WalletKeys, salt: Salt, iv: Iv, attempt: string)
    requires Base64RoundTrip(p) && WrongKeyRejected(p) && PasswordsSeparated(p)
    requires Trim(phrase) != ""
    ensures RestoreRejectionAsWritten(phrase, "", "").None?
    ensures UnlockGate(attempt).Some? ||
      UnlockAttempt(p, Some(NewWalletRecord(EncryptWallet(p, w, "", salt, iv))), attempt).Failure?
  {
    if attempt != "" {
      DecryptRejectsWrongPassword(p, w, "", attempt, salt, iv);
    }
  }

  /** The as-written restore screen with both password fields left blank: it
      accepts a valid phrase, saves a wallet sealed under the empty password,
      and the unlock screen then refuses every attempt over that storage. */
  method RestoreBlankPasswordLocksOut(p: Primitives, phrase: string, salt: Salt, iv: Iv, attempt: string)
    returns (created: Option<WalletKeys>, storedAfterRestore: Option<WalletStorage>, unlocked: Option<WalletKeys>)
    requires Base64RoundTrip(p) && WrongKeyRejected(p) && PasswordsSeparated(p)
    requires Trim(phrase) != "" && p.validateMnemonic(Trim(phrase))
    ensures created == Some(RestoreWallet(p, Trim(phrase)).value)
    ensures storedAfterRestore == Some(NewWalletRecord(EncryptWallet(p, created.value, "", salt, iv)))
    ensures unlocked.None?
  {
    var store := new WalletStore(map[], true);
    var setup := new WalletSetup(store);
    setup.restoreMnemonic := phrase;
    created := setup.HandleRestoreWallet(p, salt, iv);
    storedAfterRestore := store.Load();
    var login := new WalletLogin(store);
    login.password := attempt;
    if attempt != "" {
      DecryptRejectsWrongPassword(p, created.value, "", attempt, salt, iv);
    }
    unlocked := login.HandleUnlock(p);
  }

  /** With the create rule applied on restore, every password either setup path
      accepts passes the login gate and unlocks the wallet it sealed. */
  lemma SetupPasswordsUnlock(p: Primitives, phrase: string, password: string, confirmPassword: string,
                             w: WalletKeys, salt: Salt, iv: Iv)
    requires Base64RoundTrip(p) && CipherRoundTrip(p) && PayloadRoundTrip(p)
    requires DerivedFrom(p, w) && p.validateMnemonic(w.mnemonic)
    requires CreateRejection(password, confirmPassword).None? || RestoreRejection(phrase, password, confirmPassword).None?
    ensures UnlockGate(password).None?
    ensures UnlockAttempt(p, Some(NewWalletRecord(EncryptWallet(p, w, password, salt, iv))), password) == Success(w)
  {
    AcceptedPasswordsNonEmpty(phrase, password, confirmPassword);
    DecryptRecoversWallet(p, w, password, salt, iv);
  }
}
