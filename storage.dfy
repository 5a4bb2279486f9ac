/** The wallet's persistence (src/lib/storage.ts): one JSON record under one
    fixed `localStorage` key, holding the encrypted envelope and the plain
    preferences. */
module Storage {
  import opened Wrappers
  import opened Crypto

  datatype Currency = Sats | Btc

  datatype Preferences = Preferences(prioritizePrivacy: bool, prioritizeSpeed: bool, defaultCurrency: Currency)

  /** A `Partial<preferences>`: None for a field the caller left out. */
  datatype PreferenceUpdate = PreferenceUpdate(
    prioritizePrivacy: Option<bool>,
    prioritizeSpeed: Option<bool>,
    defaultCurrency: Option<Currency>)

  /** `WalletStorage`: the record kept under `STORAGE_KEY`. */
  datatype WalletStorage = WalletStorage(
    encryptedWallet: Option<EncryptedWallet>,
    preferences: Preferences,
    lastBackup: Option<string>)

  const STORAGE_KEY: string := "bitcoin_wallet_storage"
  const SAVE_ERROR: string := "Failed to save wallet data to storage"
  const DEFAULT_PREFERENCES: Preferences := Preferences(true, false, Sats)

  /** The record `updatePreferences` starts from when nothing loads. */
  const DEFAULT_STORAGE: WalletStorage := WalletStorage(None, DEFAULT_PREFERENCES, None)

  /** What a `localStorage` entry holds, as `loadWalletStorage` sees it: the
      empty string, text `JSON.parse` rejects, or the JSON text of a record. */
  datatype StoredText = EmptyText | Unparsable | Json(record: WalletStorage)

  /** `{ ...current, ...update }`: every field the update supplies wins, every
      other field keeps its current value. */
  function MergePreferences(current: Preferences, update: PreferenceUpdate): (merged: Preferences)
    ensures update.prioritizePrivacy.Some? ==> merged.prioritizePrivacy == update.prioritizePrivacy.value
    ensures update.prioritizePrivacy.None? ==> merged.prioritizePrivacy == current.prioritizePrivacy
    ensures update.prioritizeSpeed.Some? ==> merged.prioritizeSpeed == update.prioritizeSpeed.value
    ensures update.prioritizeSpeed.None? ==> merged.prioritizeSpeed == current.prioritizeSpeed
    ensures update.defaultCurrency.Some? ==> merged.defaultCurrency == update.defaultCurrency.value
    ensures update.defaultCurrency.None? ==> merged.defaultCurrency == current.defaultCurrency
  {
    Preferences(
      update.prioritizePrivacy.GetOr(current.prioritizePrivacy),
      update.prioritizeSpeed.GetOr(current.prioritizeSpeed),
      update.defaultCurrency.GetOr(current.defaultCurrency))
  }

  /** Applying the same update twice is applying it once. */
  lemma MergeIdempotent(current: Preferences, update: PreferenceUpdate)
    ensures MergePreferences(MergePreferences(current, update), update) == MergePreferences(current, update)
  {
  }

  /** An update that supplies every field replaces the preferences outright. */
  lemma MergeFullUpdate(current: Preferences, update: PreferenceUpdate)
    requires update.prioritizePrivacy.Some? && update.prioritizeSpeed.Some? && update.defaultCurrency.Some?
    ensures MergePreferences(current, update)
      == Preferences(update.prioritizePrivacy.value, update.prioritizeSpeed.value, update.defaultCurrency.value)
  {
  }

  /** The browser's `localStorage`, key by key. */
  class WalletStore {
    var items: map<string, StoredText>
    /** False when `setItem` throws (quota exceeded, storage disabled). */
    var acceptsWrites: bool

    constructor(items: map<string, StoredText>, acceptsWrites: bool)
      ensures this.items == items && this.acceptsWrites == acceptsWrites
    {
      this.items := items;
      this.acceptsWrites := acceptsWrites;
    }

    /** `loadWalletStorage()`: the record under the key; None when the key is
        absent, holds the empty string or holds text that does not parse. */
    function Load(): (r: Option<WalletStorage>)
      reads this
      ensures r.Some? <==> STORAGE_KEY in items && items[STORAGE_KEY].Json?
      ensures r.Some? ==> items[STORAGE_KEY] == Json(r.value)
    {
      if STORAGE_KEY !in items then None
      else
        match items[STORAGE_KEY]
        case EmptyText => None
        case Unparsable => None
        case Json(record) => Some(record)
    }

    /** `hasStoredWallet()`: a record loads and carries an envelope. */
    function HasStoredWallet(): (b: bool)
      reads this
      ensures b <==> Load().Some? && Load().value.encryptedWallet.Some?
    {
      STORAGE_KEY in items && items[STORAGE_KEY].Json? && items[STORAGE_KEY].record.encryptedWallet.Some?
    }

    /** `getPreferences()`: the stored preferences, or the defaults. */
    function GetPreferences(): (prefs: Preferences)
      reads this
      ensures Load().Some? ==> prefs == Load().value.preferences
      ensures Load().None? ==> prefs == DEFAULT_PREFERENCES
    {
      match Load()
      case Some(record) => record.preferences
      case None => DEFAULT_PREFERENCES
    }

    /** `saveWalletStorage(storage)`: replaces the whole entry under the key and
        touches no other key; a rejected write throws and changes nothing. */
    method Save(storage: WalletStorage) returns (r: Outcome<string>)
      modifies this
      ensures acceptsWrites == old(acceptsWrites)
      ensures r == Pass <==> old(acceptsWrites)
      ensures r == Pass ==> items == old(items)[STORAGE_KEY := Json(storage)]
      ensures r == Pass ==> Load() == Some(storage)
      ensures r != Pass ==> r == Fail(SAVE_ERROR) && items == old(items)
    {
      if !acceptsWrites {
        return Fail(SAVE_ERROR);
      }
      items := items[STORAGE_KEY := Json(storage)];
      return Pass;
    }

    /** `clearWalletStorage()`: removes the entry; afterwards nothing loads. */
    method Clear()
      modifies this
      ensures items == old(items) - {STORAGE_KEY} && acceptsWrites == old(acceptsWrites)
      ensures Load() == None && !HasStoredWallet() && GetPreferences() == DEFAULT_PREFERENCES
    {
      items := items - {STORAGE_KEY};
    }

    /** `updatePreferences(update)`: read the record (or the defaults), merge
        the update into its preferences, and save it back; the envelope and
        the backup time are kept. */
    method UpdatePreferences(update: PreferenceUpdate) returns (r: Outcome<string>)
      modifies this
      ensures acceptsWrites == old(acceptsWrites)
      ensures r == Pass <==> old(acceptsWrites)
      ensures var base := old(Load()).GetOr(DEFAULT_STORAGE);
        r == Pass ==> Load() == Some(base.(preferences := MergePreferences(base.preferences, update)))
      ensures r == Pass ==> GetPreferences() == MergePreferences(old(GetPreferences()), update)
      ensures r == Pass ==> old(Load()).None? ==> Load().value.encryptedWallet.None?
      ensures r == Pass ==> HasStoredWallet() == old(HasStoredWallet())
      ensures r == Pass ==> items.Keys == old(items.Keys) + {STORAGE_KEY}
      ensures r == Pass ==> forall k :: k in items && k != STORAGE_KEY ==> items[k] == old(items[k])
      ensures r != Pass ==> r == Fail(SAVE_ERROR) && items == old(items)
    {
      var storage := Load().GetOr(DEFAULT_STORAGE);
      storage := storage.(preferences := MergePreferences(storage.preferences, update));
      r := Save(storage);
    }
  }
}
