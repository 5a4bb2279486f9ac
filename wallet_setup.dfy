/** The create / restore screen (src/components/WalletSetup.tsx): the order in
    which its handlers validate input, derive, encrypt, save and call back. */
module Setup {
  import opened Wrappers
  import opened JsString
  import opened Crypto
  import opened Storage
  import opened Notice

  const MIN_PASSWORD_LENGTH: nat := 8
  /** `handleCreateWallet` always asks for a 12-word phrase. */
  const CREATE_WORD_COUNT: nat := 12

  const PASSWORDS_DIFFER := "Passwords do not match"
  const PASSWORD_TOO_SHORT := "Password must be at least 8 characters long"
  const PHRASE_MISSING := "Please enter your recovery phrase"
  const SECURE_FAILED := "Failed to secure wallet"

  const WALLET_CREATED := Toast("Wallet Created", "Please write down your recovery phrase safely", false)
  const WALLET_SECURED := Toast("Success", "Wallet created and secured successfully", false)
  const WALLET_RESTORED := Toast("Success", "Wallet restored successfully", false)

  datatype Mode = Create | Restore

  /** The record both saving handlers write: the envelope and the default preferences. */
  function NewWalletRecord(envelope: EncryptedWallet): (r: WalletStorage)
    ensures r.encryptedWallet == Some(envelope) && r.lastBackup.None?
    ensures r.preferences == DEFAULT_PREFERENCES
  {
    WalletStorage(Some(envelope), DEFAULT_PREFERENCES, None)
  }

  /** The checks of `handleCreateWallet`: a mismatch is reported before a short
      password, and only a matching password of at least 8 UTF-16 units passes. */
  function CreateRejection(password: string, confirmPassword: string): (r: Option<string>)
    ensures r == Some(PASSWORDS_DIFFER) <==> password != confirmPassword
    ensures r == Some(PASSWORD_TOO_SHORT) <==>
      password == confirmPassword && Utf16Length(password) < MIN_PASSWORD_LENGTH
    ensures r.None? <==> password == confirmPassword && Utf16Length(password) >= MIN_PASSWORD_LENGTH
  {
    if password != confirmPassword then Some(PASSWORDS_DIFFER)
    else if Utf16Length(password) < MIN_PASSWORD_LENGTH then Some(PASSWORD_TOO_SHORT)
    else None
  }

  /** The checks of `handleRestoreWallet` as written: a blank phrase is reported
      before a mismatch, and no password length is required. */
  function RestoreRejectionAsWritten(phrase: string, password: string, confirmPassword: string): (r: Option<string>)
    ensures r == Some(PHRASE_MISSING) <==> Trim(phrase) == ""
    ensures r == Some(PASSWORDS_DIFFER) <==> Trim(phrase) != "" && password != confirmPassword
    ensures r.None? <==> Trim(phrase) != "" && password == confirmPassword
  {
    if Trim(phrase) == "" then Some(PHRASE_MISSING)
    else if password != confirmPassword then Some(PASSWORDS_DIFFER)
    else None
  }

  /** The restore checks with the create screen's password rule added: a blank
      phrase first, then exactly the create checks. */
  function RestoreRejection(phrase: string, password: string, confirmPassword: string): (r: Option<string>)
    ensures r == Some(PHRASE_MISSING) <==> Trim(phrase) == ""
    ensures Trim(phrase) != "" ==> r == CreateRejection(password, confirmPassword)
    ensures r.None? ==> RestoreRejectionAsWritten(phrase, password, confirmPassword).None?
  {
    if Trim(phrase) == "" then Some(PHRASE_MISSING)
    else CreateRejection(password, confirmPassword)
  }

  /** Every password either setup check lets through is non-empty. */
  lemma AcceptedPasswordsNonEmpty(phrase: string, password: string, confirmPassword: string)
    ensures CreateRejection(password, confirmPassword).None? ==> password != ""
    ensures RestoreRejection(phrase, password, confirmPassword).None? ==> password != ""
  {
  }

  /** The `try` block of `handleRestoreWallet` on an already trimmed phrase:
      the wallet handed to the callback, or the message of the error thrown by
      `restoreWallet` (an invalid phrase) or by `saveWalletStorage` (a refused write). */
  function RestoreAttempt(p: Primitives, phrase: string, writable: bool): (r: Result<WalletKeys, string>)
    ensures r.Success? <==> p.validateMnemonic(phrase) && writable
    ensures r.Success? ==> r.value.mnemonic == phrase && DerivedFrom(p, r.value)
    ensures !p.validateMnemonic(phrase) ==> r == Failure(INVALID_MNEMONIC_MESSAGE)
    ensures p.validateMnemonic(phrase) && !writable ==> r == Failure(SAVE_ERROR)
  {
    match RestoreWallet(p, phrase)
    case Failure(e) => Failure(Message(e))
    case Success(w) => if writable then Success(w) else Failure(SAVE_ERROR)
  }

  class WalletSetup {
    const store: WalletStore
    var isCreating: bool
    var password: string
    var confirmPassword: string
    var restoreMnemonic: string
    var mode: Mode
    var generatedMnemonic: string
    var showMnemonic: bool
    var toasts: seq<Toast>
    /** Every value `setIsCreating` was called with, oldest first. */
    ghost var isCreatingTrace: seq<bool>

    constructor(store: WalletStore)
      ensures this.store == store
      ensures !isCreating && password == "" && confirmPassword == "" && restoreMnemonic == ""
      ensures mode == Create && generatedMnemonic == "" && !showMnemonic
      ensures toasts == [] && isCreatingTrace == []
    {
      this.store := store;
      isCreating, password, confirmPassword, restoreMnemonic := false, "", "", "";
      mode, generatedMnemonic, showMnemonic := Create, "", false;
      toasts, isCreatingTrace := [], [];
    }

    method SetIsCreating(value: bool)
      modifies this`isCreating, this`isCreatingTrace
      ensures isCreating == value && isCreatingTrace == old(isCreatingTrace) + [value]
    {
      isCreating := value;
      isCreatingTrace := isCreatingTrace + [value];
    }

    /** The "Back" button of the recovery-phrase screen. */
    method Back()
      modifies this`showMnemonic
      ensures !showMnemonic
    {
      showMnemonic := false;
    }

    /** `handleCreateWallet`: validates, then generates a 12-word wallet and
        shows its phrase. It never writes to storage. */
    method HandleCreateWallet(p: Primitives, random: Bytes)
      modifies this
      ensures unchanged(store)
      ensures unchanged(this`password, this`confirmPassword, this`restoreMnemonic, this`mode)
      ensures CreateRejection(password, confirmPassword).Some? ==>
        && toasts == old(toasts) + [ErrorToast(CreateRejection(password, confirmPassword).value)]
        && unchanged(this`generatedMnemonic, this`showMnemonic, this`isCreating)
        && isCreatingTrace == old(isCreatingTrace)
      ensures CreateRejection(password, confirmPassword).None? ==>
        && generatedMnemonic == GenerateWallet(p, CREATE_WORD_COUNT, random).mnemonic
        && showMnemonic
        && toasts == old(toasts) + [WALLET_CREATED]
        && !isCreating && isCreatingTrace == old(isCreatingTrace) + [true, false]
    {
      var rejection := CreateRejection(password, confirmPassword);
      if rejection.Some? {
        toasts := toasts + [ErrorToast(rejection.value)];
        return;
      }
      SetIsCreating(true);
      var wallet := GenerateWallet(p, CREATE_WORD_COUNT, random);
      generatedMnemonic := wallet.mnemonic;
      showMnemonic := true;
      toasts := toasts + [WALLET_CREATED];
      SetIsCreating(false);
    }

    /** `handleConfirmWallet`: re-derives from the shown phrase, encrypts under
        the entered password with the drawn salt and nonce, saves, and only then
        hands the wallet to the callback (the returned value). Any failure is
        reported as "Failed to secure wallet" and nothing is saved. */
    method HandleConfirmWallet(p: Primitives, salt: Salt, iv: Iv) returns (created: Option<WalletKeys>)
      modifies this, store
      ensures unchanged(this`password, this`confirmPassword, this`restoreMnemonic, this`mode)
      ensures unchanged(this`generatedMnemonic, this`showMnemonic, this`isCreating)
      ensures isCreatingTrace == old(isCreatingTrace)
      ensures store.acceptsWrites == old(store.acceptsWrites)
      ensures created.Some? <==> RestoreWallet(p, generatedMnemonic).Success? && old(store.acceptsWrites)
      ensures created.Some? ==>
        && created.value == RestoreWallet(p, generatedMnemonic).value
        && store.items == old(store.items)[STORAGE_KEY := Json(NewWalletRecord(EncryptWallet(p, created.value, password, salt, iv)))]
        && toasts == old(toasts) + [WALLET_SECURED]
      ensures created.None? ==> store.items == old(store.items) && toasts == old(toasts) + [ErrorToast(SECURE_FAILED)]
    {
      var restored := RestoreWallet(p, generatedMnemonic);
      if restored.Failure? {
        toasts := toasts + [ErrorToast(SECURE_FAILED)];
        return None;
      }
      var envelope := EncryptWallet(p, restored.value, password, salt, iv);
      var saved := store.Save(NewWalletRecord(envelope));
      if saved.Fail? {
        toasts := toasts + [ErrorToast(SECURE_FAILED)];
        return None;
      }
      created := Some(restored.value);
      toasts := toasts + [WALLET_SECURED];
    }

    /** What the `try`/`catch` of `handleRestoreWallet` leaves behind for the
        trimmed phrase: on success the new record saved, the success toast and
        the wallet called back; on failure the error's message shown and
        storage untouched. */
    twostate predicate RestoreSettled(p: Primitives, phrase: string, salt: Salt, iv: Iv, new created: Option<WalletKeys>)
      reads this, store
    {
      var attempt := RestoreAttempt(p, phrase, old(store.acceptsWrites));
      && (attempt.Success? ==>
            && created == Some(attempt.value)
            && store.items == old(store.items)[STORAGE_KEY := Json(NewWalletRecord(EncryptWallet(p, attempt.value, password, salt, iv)))]
            && toasts == old(toasts) + [WALLET_RESTORED])
      && (attempt.Failure? ==>
            created.None? && store.items == old(store.items) && toasts == old(toasts) + [ErrorToast(attempt.error)])
    }

    /** The `try`/`catch` of `handleRestoreWallet` on the trimmed phrase. */
    method TryRestore(p: Primitives, phrase: string, salt: Salt, iv: Iv) returns (created: Option<WalletKeys>)
      modifies this`toasts, store
      ensures store.acceptsWrites == old(store.acceptsWrites)
      ensures RestoreSettled(p, phrase, salt, iv, created)
    {
      var restored := RestoreWallet(p, phrase);
      if restored.Failure? {
        toasts := toasts + [ErrorToast(Message(restored.error))];
        return None;
      }
      var envelope := EncryptWallet(p, restored.value, password, salt, iv);
      var saved := store.Save(NewWalletRecord(envelope));
      if saved.Fail? {
        toasts := toasts + [ErrorToast(saved.error)];
        return None;
      }
      created := Some(restored.value);
      toasts := toasts + [WALLET_RESTORED];
    }

    /** The busy flag raised around `TryRestore`. */
    method RunRestore(p: Primitives, phrase: string, salt: Salt, iv: Iv) returns (created: Option<WalletKeys>)
      modifies this`isCreating, this`isCreatingTrace, this`toasts, store
      ensures store.acceptsWrites == old(store.acceptsWrites)
      ensures !isCreating && isCreatingTrace == old(isCreatingTrace) + [true, false]
      ensures RestoreSettled(p, phrase, salt, iv, created)
    {
      SetIsCreating(true);
      created := TryRestore(p, phrase, salt, iv);
      SetIsCreating(false);
    }

    /** `handleRestoreWallet` as written: validates (a blank phrase, then a
        mismatch; no password length), then runs `RestoreAttempt` on the trimmed
        phrase: saves and calls back on success, surfaces the thrown error's own
        message and saves nothing on failure. */
    method HandleRestoreWallet(p: Primitives, salt: Salt, iv: Iv) returns (created: Option<WalletKeys>)
      modifies this, store
      ensures unchanged(this`password, this`confirmPassword, this`restoreMnemonic, this`mode)
      ensures unchanged(this`generatedMnemonic, this`showMnemonic)
      ensures store.acceptsWrites == old(store.acceptsWrites)
      ensures RestoreRejectionAsWritten(restoreMnemonic, password, confirmPassword).Some? ==>
        && created.None? && store.items == old(store.items)
        && toasts == old(toasts) + [ErrorToast(RestoreRejectionAsWritten(restoreMnemonic, password, confirmPassword).value)]
        && isCreating == old(isCreating) && isCreatingTrace == old(isCreatingTrace)
      ensures RestoreRejectionAsWritten(restoreMnemonic, password, confirmPassword).None? ==>
        && !isCreating && isCreatingTrace == old(isCreatingTrace) + [true, false]
        && RestoreSettled(p, Trim(restoreMnemonic), salt, iv, created)
    {
      var phrase := restoreMnemonic;
      var rejection := RestoreRejectionAsWritten(phrase, password, confirmPassword);
      if rejection.Some? {
        toasts := toasts + [ErrorToast(rejection.value)];
        return None;
      }
      created := RunRestore(p, Trim(phrase), salt, iv);
    }

    /** `handleRestoreWallet` with the create screen's password rule added to
        its checks; everything after the checks is as written. */
    method HandleRestoreWalletCorrected(p: Primitives, salt: Salt, iv: Iv) returns (created: Option<WalletKeys>)
      modifies this, store
      ensures unchanged(this`password, this`confirmPassword, this`restoreMnemonic, this`mode)
      ensures unchanged(this`generatedMnemonic, this`showMnemonic)
      ensures store.acceptsWrites == old(store.acceptsWrites)
      ensures RestoreRejection(restoreMnemonic, password, confirmPassword).Some? ==>
        && created.None? && store.items == old(store.items)
        && toasts == old(toasts) + [ErrorToast(RestoreRejection(restoreMnemonic, password, confirmPassword).value)]
        && isCreating == old(isCreating) && isCreatingTrace == old(isCreatingTrace)
      ensures RestoreRejection(restoreMnemonic, password, confirmPassword).None? ==>
        && !isCreating && isCreatingTrace == old(isCreatingTrace) + [true, false]
        && RestoreSettled(p, Trim(restoreMnemonic), salt, iv, created)
    {
      var phrase := restoreMnemonic;
      var rejection := RestoreRejection(phrase, password, confirmPassword);
      if rejection.Some? {
        toasts := toasts + [ErrorToast(rejection.value)];
        return None;
      }
      created := RunRestore(p, Trim(phrase), salt, iv);
    }
  }
}
