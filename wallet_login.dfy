/** The unlock screen (src/components/WalletLogin.tsx): the empty-password
    gate, the storage read, the decryption and the busy flag. */
module Login {
  import opened Wrappers
  import opened Crypto
  import opened Storage
  import opened Notice

  const ENTER_PASSWORD := "Please enter your password"
  const NO_WALLET := "No wallet found"
  const WALLET_UNLOCKED := Toast("Success", "Wallet unlocked successfully", false)

  /** The first check of `handleUnlock`: an empty password is refused. */
  function UnlockGate(password: string): (r: Option<string>)
    ensures r.Some? <==> password == ""
    ensures r.Some? ==> r.value == ENTER_PASSWORD
  {
    if password == "" then Some(ENTER_PASSWORD) else None
  }

  /** The `try` block of `handleUnlock` on what storage holds: "No wallet found"
      without an envelope (decryption is not reached), otherwise the outcome of
      `decryptWallet`, whose error message passes through unchanged. */
  function UnlockAttempt(p: Primitives, stored: Option<WalletStorage>, password: string): (r: Result<WalletKeys, string>)
    ensures (stored.None? || stored.value.encryptedWallet.None?) ==> r == Failure(NO_WALLET)
    ensures stored.Some? && stored.value.encryptedWallet.Some? ==>
      var decrypted := DecryptWallet(p, stored.value.encryptedWallet.value, password);
      && (r.Success? <==> decrypted.Success?)
      && (r.Success? ==> r.value == decrypted.value)
      && (r.Failure? ==> r.error == Message(decrypted.error))
  {
    match stored
    case None => Failure(NO_WALLET)
    case Some(record) =>
      match record.encryptedWallet
      case None => Failure(NO_WALLET)
      case Some(envelope) =>
        match DecryptWallet(p, envelope, password)
        case Success(w) => Success(w)
        case Failure(e) => Failure(Message(e))
  }

  /** Once the envelope's three fields are base64, every unlock failure reads
      as a wrong password: undecryptable, unparsable and invalid payloads alike. */
  lemma UnlockFailuresCollapse(p: Primitives, record: WalletStorage, password: string)
    requires record.encryptedWallet.Some?
    requires var e := record.encryptedWallet.value;
      p.atob(e.salt).Success? && p.atob(e.iv).Success? && p.atob(e.encryptedData).Success?
    ensures UnlockAttempt(p, Some(record), password).Failure? ==>
      UnlockAttempt(p, Some(record), password).error == DECRYPT_FAILED_MESSAGE
  {
  }

  class WalletLogin {
    const store: WalletStore
    var password: string
    var isUnlocking: bool
    var toasts: seq<Toast>
    /** Every value `setIsUnlocking` was called with, oldest first. */
    ghost var isUnlockingTrace: seq<bool>

    constructor(store: WalletStore)
      ensures this.store == store && password == "" && !isUnlocking
      ensures toasts == [] && isUnlockingTrace == []
    {
      this.store := store;
      password, isUnlocking := "", false;
      toasts, isUnlockingTrace := [], [];
    }

    method SetIsUnlocking(value: bool)
      modifies this`isUnlocking, this`isUnlockingTrace
      ensures isUnlocking == value && isUnlockingTrace == old(isUnlockingTrace) + [value]
    {
      isUnlocking := value;
      isUnlockingTrace := isUnlockingTrace + [value];
    }

    /** What one run of `handleUnlock` does, as seen after it returns. */
    twostate predicate UnlockHandled(p: Primitives, new unlocked: Option<WalletKeys>)
      reads this, store
    {
      && password == old(password)
      && (UnlockGate(password).Some? ==>
            && unlocked.None?
            && toasts == old(toasts) + [ErrorToast(UnlockGate(password).value)]
            && isUnlocking == old(isUnlocking) && isUnlockingTrace == old(isUnlockingTrace))
      && (UnlockGate(password).None? ==>
            var attempt := UnlockAttempt(p, store.Load(), password);
            && !isUnlocking && isUnlockingTrace == old(isUnlockingTrace) + [true, false]
            && (attempt.Success? ==> unlocked == Some(attempt.value) && toasts == old(toasts) + [WALLET_UNLOCKED])
            && (attempt.Failure? ==> unlocked.None? && toasts == old(toasts) + [ErrorToast(attempt.error)]))
    }

    /** `handleUnlock`: an empty password is refused before storage is read or
        the busy flag is raised; otherwise the flag is up for the attempt and
        down after it, the callback (the returned value) gets the decrypted
        wallet exactly when decryption succeeds, and storage is never written. */
    method HandleUnlock(p: Primitives) returns (unlocked: Option<WalletKeys>)
      modifies this
      ensures unchanged(store)
      ensures UnlockHandled(p, unlocked)
    {
      var refusal := UnlockGate(password);
      if refusal.Some? {
        toasts := toasts + [ErrorToast(refusal.value)];
        return None;
      }
      SetIsUnlocking(true);
      var attempt := UnlockAttempt(p, store.Load(), password);
      match attempt {
        case Success(w) =>
          unlocked := Some(w);
          toasts := toasts + [WALLET_UNLOCKED];
        case Failure(message) =>
          unlocked := None;
          toasts := toasts + [ErrorToast(message)];
      }
      SetIsUnlocking(false);
    }

    /** `handleKeyPress`: Enter runs the same unlock; any other key does nothing. */
    method HandleKeyPress(p: Primitives, key: string) returns (unlocked: Option<WalletKeys>)
      modifies this
      ensures unchanged(store)
      ensures key == "Enter" ==> UnlockHandled(p, unlocked)
      ensures key != "Enter" ==> unchanged(this) && unlocked.None?
    {
      if key == "Enter" {
        unlocked := HandleUnlock(p);
      } else {
        unlocked := None;
      }
    }
  }
}
