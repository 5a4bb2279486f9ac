/** The page that picks the wallet screen (src/pages/Index.tsx). */
module IndexPage {
  import opened Wrappers
  import opened Crypto
  import opened Storage

  datatype Screen = Loading | Login | Setup | Dashboard(wallet: WalletKeys)

  /** The render rule: loading until the storage check has run, then the
      dashboard once a wallet is held, else login or setup by `hasWallet`. */
  function ScreenFor(hasWallet: Option<bool>, wallet: Option<WalletKeys>): (s: Screen)
    ensures s == Loading <==> hasWallet.None?
    ensures s == Login <==> hasWallet == Some(true) && wallet.None?
    ensures s == Setup <==> hasWallet == Some(false) && wallet.None?
    ensures s.Dashboard? <==> hasWallet.Some? && wallet.Some?
    ensures s.Dashboard? ==> s.wallet == wallet.value
  {
    match hasWallet
    case None => Loading
    case Some(stored) =>
      match wallet
      case Some(w) => Dashboard(w)
      case None => if stored then Login else Setup
  }

  class Index {
    const store: WalletStore
    var wallet: Option<WalletKeys>
    var hasWallet: Option<bool>

    /** First render: nothing known yet. */
    constructor(store: WalletStore)
      ensures this.store == store && wallet.None? && hasWallet.None?
      ensures CurrentScreen() == Loading
    {
      this.store := store;
      wallet, hasWallet := None, None;
    }

    function CurrentScreen(): Screen
      reads this
    {
      ScreenFor(hasWallet, wallet)
    }

    /** The mount effect: `setHasWallet(hasStoredWallet())`. */
    method Mount()
      modifies this
      ensures hasWallet == Some(store.HasStoredWallet()) && wallet == old(wallet)
      ensures old(wallet).None? ==> CurrentScreen() == (if store.HasStoredWallet() then Login else Setup)
    {
      hasWallet := Some(store.HasStoredWallet());
    }

    /** `handleWalletCreated`: holds the wallet and records that one is stored. */
    method HandleWalletCreated(w: WalletKeys)
      modifies this
      ensures wallet == Some(w) && hasWallet == Some(true)
      ensures CurrentScreen() == Dashboard(w)
    {
      wallet := Some(w);
      hasWallet := Some(true);
    }

    /** `handleWalletUnlocked`: holds the wallet, `hasWallet` untouched. */
    method HandleWalletUnlocked(w: WalletKeys)
      modifies this
      ensures wallet == Some(w) && hasWallet == old(hasWallet)
      ensures old(hasWallet).Some? ==> CurrentScreen() == Dashboard(w)
      ensures old(hasWallet).None? ==> CurrentScreen() == Loading
    {
      wallet := Some(w);
    }
  }
}
