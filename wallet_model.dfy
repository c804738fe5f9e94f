/**
 * The state a WalletModel keeps between calls: the cached balances and block
 * height that decide when balanceChanged is emitted, the wallet's encryption
 * status, and the UnlockContext that relocks the wallet when it goes away.
 * What the wallet answers (its balances, whether it is encrypted or locked,
 * whether a lock could be taken) is passed in; emitted signals and requests
 * to lock the wallet are recorded in logs on the model.
 */
module WalletModelState {
  import opened FixedWidth

  /** The six figures of balanceChanged, in the signal's argument order. */
  datatype Balances = Balances(
    balance: Amount,
    unconfirmed: Amount,
    immature: Amount,
    watchOnly: Amount,
    watchUnconf: Amount,
    watchImmature: Amount)

  /** Every figure is Amount::zero(). */
  const NoBalances := Balances(0, 0, 0, 0, 0, 0)

  /**
   * The figures checkBalanceChanged compares with its cache, given what the
   * wallet's six balance getters answer: the watch-only figures are read
   * only when the wallet has watch-only addresses and are zero otherwise.
   */
  function Observed(w: Balances, haveWatchOnly: bool): (b: Balances)
    ensures b.balance == w.balance && b.unconfirmed == w.unconfirmed && b.immature == w.immature
    ensures haveWatchOnly ==> b == w
    ensures !haveWatchOnly ==> b.watchOnly == 0 && b.watchUnconf == 0 && b.watchImmature == 0
  {
    if haveWatchOnly then w else Balances(w.balance, w.unconfirmed, w.immature, 0, 0, 0)
  }

  // ---------------------------------------------------------------------
  // The balance cache as a value

  /**
   * The part of a WalletModel that polling reads and writes: the six cached
   * balances, the block height they were taken at, the flag that forces the
   * next poll to re-check, and every balanceChanged emitted so far.
   */
  datatype CacheState = CacheState(
    cached: Balances,
    cachedNumBlocks: int,
    fForceCheckBalanceChanged: bool,
    emitted: seq<Balances>)

  /** checkBalanceChanged on a cache, for wallet answers `w`. */
  function Checked(s: CacheState, w: Balances, haveWatchOnly: bool): (t: CacheState)
    ensures t.cached == Observed(w, haveWatchOnly)
    ensures t.cachedNumBlocks == s.cachedNumBlocks && t.fForceCheckBalanceChanged == s.fForceCheckBalanceChanged
    ensures s.cached != Observed(w, haveWatchOnly) <==> t.emitted == s.emitted + [Observed(w, haveWatchOnly)]
    ensures s.cached == Observed(w, haveWatchOnly) <==> t == s
  {
    var b := Observed(w, haveWatchOnly);
    if s.cached != b then s.(cached := b, emitted := s.emitted + [b]) else s
  }

  /**
   * pollBalanceChanged on a cache: `lockMain` and `lockWallet` say whether
   * each TRY_LOCK succeeded, `height` is the active chain's height.
   */
  function Polled(s: CacheState, lockMain: bool, lockWallet: bool, height: int, w: Balances, haveWatchOnly: bool): CacheState
  {
    if !lockMain || !lockWallet then s
    else if s.fForceCheckBalanceChanged || height != s.cachedNumBlocks then
      Checked(s.(fForceCheckBalanceChanged := false, cachedNumBlocks := height), w, haveWatchOnly)
    else s
  }

  /** updateTransaction on a cache. */
  function Flagged(s: CacheState): CacheState
  {
    s.(fForceCheckBalanceChanged := true)
  }

  /**
   * What a listener to balanceChanged has last been told is what the model
   * caches: the last signal carries the cached figures, and before any
   * signal the cache holds its initial zeros.
   */
  predicate ListenerAgrees(s: CacheState)
  {
    if s.emitted == [] then s.cached == NoBalances else s.emitted[|s.emitted| - 1] == s.cached
  }

  /** No two successive signals carry the same figures. */
  predicate NoRepeatedSignal(s: CacheState)
  {
    forall k | 0 < k < |s.emitted| :: s.emitted[k - 1] != s.emitted[k]
  }

  /** Polling and updateTransaction keep a listener in step with the cache. */
  lemma {:induction false} OperationsKeepListenerAgreeing(s: CacheState, lockMain: bool, lockWallet: bool, height: int,
                                                          w: Balances, haveWatchOnly: bool)
    requires ListenerAgrees(s)
    ensures ListenerAgrees(Checked(s, w, haveWatchOnly))
    ensures ListenerAgrees(Polled(s, lockMain, lockWallet, height, w, haveWatchOnly))
    ensures ListenerAgrees(Flagged(s))
  {
  }

  /**
   * A signal is emitted only when some figure changed, so the listener never
   * hears the same six figures twice in a row.
   */
  lemma {:induction false} PollingNeverRepeatsASignal(s: CacheState, lockMain: bool, lockWallet: bool, height: int,
                                                      w: Balances, haveWatchOnly: bool)
    requires ListenerAgrees(s) && NoRepeatedSignal(s)
    ensures NoRepeatedSignal(Checked(s, w, haveWatchOnly))
    ensures NoRepeatedSignal(Polled(s, lockMain, lockWallet, height, w, haveWatchOnly))
  {
    CheckNeverRepeatsASignal(s, w, haveWatchOnly);
    if lockMain && lockWallet && (s.fForceCheckBalanceChanged || height != s.cachedNumBlocks) {
      CheckNeverRepeatsASignal(s.(fForceCheckBalanceChanged := false, cachedNumBlocks := height), w, haveWatchOnly);
    }
  }

  lemma CheckNeverRepeatsASignal(s: CacheState, w: Balances, haveWatchOnly: bool)
    requires ListenerAgrees(s) && NoRepeatedSignal(s)
    ensures NoRepeatedSignal(Checked(s, w, haveWatchOnly))
  {
    var t := Checked(s, w, haveWatchOnly);
    if |t.emitted| > |s.emitted| {
      forall k | 0 < k < |t.emitted|
        ensures t.emitted[k - 1] != t.emitted[k]
      {
        if k < |s.emitted| {
          assert t.emitted[k - 1] == s.emitted[k - 1] && t.emitted[k] == s.emitted[k];
        }
      }
    }
  }

  /** Without either lock the poll gives up and changes nothing. */
  lemma PollWithoutLocksChangesNothing(s: CacheState, lockMain: bool, lockWallet: bool, height: int,
                                       w: Balances, haveWatchOnly: bool)
    requires !lockMain || !lockWallet
    ensures Polled(s, lockMain, lockWallet, height, w, haveWatchOnly) == s
  {
  }

  /**
   * With both locks, a poll re-checks exactly when it is forced or the chain
   * moved: it then clears the flag, records the height and caches the
   * wallet's figures, emitting at most one signal; otherwise nothing changes.
   */
  lemma PollDecides(s: CacheState, height: int, w: Balances, haveWatchOnly: bool)
    ensures var t := Polled(s, true, true, height, w, haveWatchOnly);
            && (s.fForceCheckBalanceChanged || height != s.cachedNumBlocks ==>
                  && !t.fForceCheckBalanceChanged && t.cachedNumBlocks == height
                  && t.cached == Observed(w, haveWatchOnly)
                  && (t.emitted == s.emitted || t.emitted == s.emitted + [t.cached]))
            && (!s.fForceCheckBalanceChanged && height == s.cachedNumBlocks ==> t == s)
  {
  }

  /**
   * updateTransaction makes the next poll that gets both locks re-check the
   * balances even though the chain has not moved.
   */
  lemma UpdateTransactionForcesRecheck(s: CacheState, w: Balances, haveWatchOnly: bool)
    ensures var t := Polled(Flagged(s), true, true, s.cachedNumBlocks, w, haveWatchOnly);
            t.cached == Observed(w, haveWatchOnly) && !t.fForceCheckBalanceChanged
  {
  }

  /**
   * Once a poll has run, a second poll at the same height sees nothing new,
   * even if the wallet's figures moved meanwhile: only a new block or
   * updateTransaction makes the model look again.
   */
  lemma SecondPollAtSameHeightIsIdle(s: CacheState, height: int, w: Balances, w': Balances, haveWatchOnly: bool)
    ensures var t := Polled(s, true, true, height, w, haveWatchOnly);
            Polled(t, true, true, height, w', haveWatchOnly) == t
  {
  }

  /** Checking twice against the same wallet figures is checking once. */
  lemma CheckIsIdempotent(s: CacheState, w: Balances, haveWatchOnly: bool)
    ensures Checked(Checked(s, w, haveWatchOnly), w, haveWatchOnly) == Checked(s, w, haveWatchOnly)
  {
  }

  // ---------------------------------------------------------------------
  // Encryption status and the relock obligation as values

  datatype EncryptionStatus = Unencrypted | Locked | Unlocked

  /** The three-way classification of the wallet's key store. */
  function GetEncryptionStatus(isCrypted: bool, isLocked: bool): (status: EncryptionStatus)
    ensures status == Unencrypted <==> !isCrypted
    ensures status == Locked <==> isCrypted && isLocked
    ensures status == Unlocked <==> isCrypted && !isLocked
  {
    if !isCrypted then Unencrypted
    else if isLocked then Locked
    else Unlocked
  }

  /** The two flags of an UnlockContext. */
  datatype Context = Context(valid: bool, relock: bool)

  /** Whether destroying the context locks the wallet again. */
  predicate Relocks(c: Context)
  {
    c.valid && c.relock
  }

  /**
   * The context requestUnlock returns, given whether the wallet is encrypted
   * and whether it is locked before and after the unlock request.
   */
  function Requested(isCrypted: bool, lockedBefore: bool, lockedAfter: bool): Context
  {
    Context(GetEncryptionStatus(isCrypted, lockedAfter) != Locked, GetEncryptionStatus(isCrypted, lockedBefore) == Locked)
  }

  /**
   * The context is usable unless the wallet is still locked, and the wallet
   * is locked again later exactly when this request is what unlocked it: an
   * unencrypted or already unlocked wallet is never relocked.
   */
  lemma RequestedRelocksOnlyWhatItUnlocked(isCrypted: bool, lockedBefore: bool, lockedAfter: bool)
    ensures Requested(isCrypted, lockedBefore, lockedAfter).valid <==> !isCrypted || !lockedAfter
    ensures Relocks(Requested(isCrypted, lockedBefore, lockedAfter)) <==> isCrypted && lockedBefore && !lockedAfter
  {
  }

  /** How many of the contexts will lock the wallet when destroyed. */
  function RelockCount(cs: seq<Context>): (n: nat)
    ensures n <= |cs|
    ensures n == 0 <==> forall k | 0 <= k < |cs| :: !Relocks(cs[k])
  {
    if cs == [] then 0 else RelockCount(cs[..|cs| - 1]) + (if Relocks(cs[|cs| - 1]) then 1 else 0)
  }

  /**
   * CopyFrom among live contexts: context `i` becomes a copy of context `j`,
   * and then `j` no longer relocks. When `i` and `j` are the same context the
   * copy changes nothing and the obligation is simply dropped.
   */
  function CopyInto(cs: seq<Context>, i: nat, j: nat): (r: seq<Context>)
    requires i < |cs| && j < |cs|
    ensures |r| == |cs|
    ensures i != j ==> r[i] == cs[j] && r[j] == cs[j].(relock := false)
    ensures i == j ==> r[i] == cs[i].(relock := false)
    ensures forall k | 0 <= k < |cs| && k != i && k != j :: r[k] == cs[k]
  {
    cs[i := cs[j]][j := cs[j].(relock := false)]
  }

  lemma {:induction false} RelockCountUpdate(cs: seq<Context>, k: nat, c: Context)
    requires k < |cs|
    ensures RelockCount(cs[k := c]) + (if Relocks(cs[k]) then 1 else 0) == RelockCount(cs) + (if Relocks(c) then 1 else 0)
  {
    var n := |cs| - 1;
    if k < n {
      RelockCountUpdate(cs[..n], k, c);
      assert cs[k := c][..n] == cs[..n][k := c];
    } else {
      assert cs[k := c][..n] == cs[..n];
    }
  }

  /**
   * A copy never creates a relock obligation: the source's obligation moves
   * to the target, and whatever obligation the target held is lost.
   */
  lemma {:induction false} CopyMovesTheObligation(cs: seq<Context>, i: nat, j: nat)
    requires i < |cs| && j < |cs|
    ensures RelockCount(CopyInto(cs, i, j)) == RelockCount(cs) - (if Relocks(cs[i]) then 1 else 0)
    ensures i != j ==> (Relocks(CopyInto(cs, i, j)[i]) <==> Relocks(cs[j]))
  {
    RelockCountUpdate(cs, i, cs[j]);
    RelockCountUpdate(cs[i := cs[j]], j, cs[j].(relock := false));
  }

  /** The copies made from one context, in order: (target, source) pairs. */
  function CopyAll(cs: seq<Context>, copies: seq<(nat, nat)>): (r: seq<Context>)
    requires forall m | 0 <= m < |copies| :: copies[m].0 < |cs| && copies[m].1 < |cs|
    ensures |r| == |cs|
    decreases copies
  {
    if copies == [] then cs
    else CopyAll(CopyInto(cs, copies[0].0, copies[0].1), copies[1..])
  }

  /**
   * However a context is copied around, at most as many contexts relock the
   * wallet as did before; starting from the one requestUnlock returned, the
   * wallet is relocked at most once.
   */
  lemma {:induction false} CopiesNeverMultiplyRelocks(cs: seq<Context>, copies: seq<(nat, nat)>)
    requires forall m | 0 <= m < |copies| :: copies[m].0 < |cs| && copies[m].1 < |cs|
    ensures RelockCount(CopyAll(cs, copies)) <= RelockCount(cs)
    decreases copies
  {
    if copies != [] {
      CopyMovesTheObligation(cs, copies[0].0, copies[0].1);
      CopiesNeverMultiplyRelocks(CopyInto(cs, copies[0].0, copies[0].1), copies[1..]);
    }
  }

  // ---------------------------------------------------------------------
  // The objects

  /** The fields of a WalletModel that the modelled members read and write. */
  class WalletModel {
    var cachedBalance: Amount
    var cachedUnconfirmedBalance: Amount
    var cachedImmatureBalance: Amount
    var cachedWatchOnlyBalance: Amount
    var cachedWatchUnconfBalance: Amount
    var cachedWatchImmatureBalance: Amount
    var cachedNumBlocks: int
    var fForceCheckBalanceChanged: bool
    var fHaveWatchOnly: bool
    /** Every balanceChanged emitted, with its six arguments. */
    var balanceChangedSignals: seq<Balances>
    /** How many times requireUnlock was emitted. */
    var requireUnlockSignals: nat
    /** The `locked` argument of every setWalletLocked call. */
    var lockRequests: seq<bool>

    /** The six cached figures. */
    function Cached(): Balances
      reads this
    {
      Balances(cachedBalance, cachedUnconfirmedBalance, cachedImmatureBalance,
               cachedWatchOnlyBalance, cachedWatchUnconfBalance, cachedWatchImmatureBalance)
    }

    /** The polling state of this model as a value. */
    function Cache(): CacheState
      reads this
    {
      CacheState(Cached(), cachedNumBlocks, fForceCheckBalanceChanged, balanceChangedSignals)
    }

    /** The constructor's effect on the modelled fields. */
    constructor(haveWatchOnly: bool)
      ensures Cache() == CacheState(NoBalances, 0, false, [])
      ensures ListenerAgrees(Cache()) && NoRepeatedSignal(Cache())
      ensures fHaveWatchOnly == haveWatchOnly
      ensures requireUnlockSignals == 0 && lockRequests == []
    {
      cachedBalance, cachedUnconfirmedBalance, cachedImmatureBalance := 0, 0, 0;
      cachedWatchOnlyBalance, cachedWatchUnconfBalance, cachedWatchImmatureBalance := 0, 0, 0;
      cachedNumBlocks := 0;
      fHaveWatchOnly := haveWatchOnly;
      fForceCheckBalanceChanged := false;
      balanceChangedSignals := [];
      requireUnlockSignals := 0;
      lockRequests := [];
    }

    /**
     * Reads the wallet's balances (`w`) and, if any of the six figures
     * differs from the cache, replaces all six and emits balanceChanged.
     */
    method CheckBalanceChanged(w: Balances)
      modifies this`cachedBalance, this`cachedUnconfirmedBalance, this`cachedImmatureBalance
      modifies this`cachedWatchOnlyBalance, this`cachedWatchUnconfBalance, this`cachedWatchImmatureBalance
      modifies this`balanceChangedSignals
      ensures Cache() == Checked(old(Cache()), w, fHaveWatchOnly)
    {
      var newBalance := w.balance;
      var newUnconfirmedBalance := w.unconfirmed;
      var newImmatureBalance := w.immature;
      var newWatchOnlyBalance := 0;
      var newWatchUnconfBalance := 0;
      var newWatchImmatureBalance := 0;
      if fHaveWatchOnly {
        newWatchOnlyBalance := w.watchOnly;
        newWatchUnconfBalance := w.watchUnconf;
        newWatchImmatureBalance := w.watchImmature;
      }

      if cachedBalance != newBalance
         || cachedUnconfirmedBalance != newUnconfirmedBalance
         || cachedImmatureBalance != newImmatureBalance
         || cachedWatchOnlyBalance != newWatchOnlyBalance
         || cachedWatchUnconfBalance != newWatchUnconfBalance
         || cachedWatchImmatureBalance != newWatchImmatureBalance
      {
        cachedBalance := newBalance;
        cachedUnconfirmedBalance := newUnconfirmedBalance;
        cachedImmatureBalance := newImmatureBalance;
        cachedWatchOnlyBalance := newWatchOnlyBalance;
        cachedWatchUnconfBalance := newWatchUnconfBalance;
        cachedWatchImmatureBalance := newWatchImmatureBalance;
        balanceChangedSignals := balanceChangedSignals
          + [Balances(newBalance, newUnconfirmedBalance, newImmatureBalance,
                      newWatchOnlyBalance, newWatchUnconfBalance, newWatchImmatureBalance)];
      }
    }

    /**
     * The periodic poll: give up unless both locks were taken; re-check when
     * forced or when the chain is at a new height.
     */
    method PollBalanceChanged(lockMain: bool, lockWallet: bool, height: int, w: Balances)
      modifies this`cachedBalance, this`cachedUnconfirmedBalance, this`cachedImmatureBalance
      modifies this`cachedWatchOnlyBalance, this`cachedWatchUnconfBalance, this`cachedWatchImmatureBalance
      modifies this`balanceChangedSignals, this`cachedNumBlocks, this`fForceCheckBalanceChanged
      ensures Cache() == Polled(old(Cache()), lockMain, lockWallet, height, w, fHaveWatchOnly)
    {
      if !lockMain {
        return;
      }
      if !lockWallet {
        return;
      }
      if fForceCheckBalanceChanged || height != cachedNumBlocks {
        fForceCheckBalanceChanged := false;
        cachedNumBlocks := height;
        CheckBalanceChanged(w);
      }
    }

    /** A wallet transaction changed: make the next poll re-check. */
    method UpdateTransaction()
      modifies this`fForceCheckBalanceChanged
      ensures Cache() == Flagged(old(Cache()))
    {
      fForceCheckBalanceChanged := true;
    }

    /** Records a request to lock (or unlock) the wallet. */
    method SetWalletLocked(locked: bool)
      modifies this`lockRequests
      ensures lockRequests == old(lockRequests) + [locked]
    {
      lockRequests := lockRequests + [locked];
    }

    /**
     * Asks the UI to unlock a locked wallet and returns a context for the
     * caller. `lockedBefore` and `lockedAfter` are the wallet's answers to
     * IsLocked before and after the request.
     */
    method RequestUnlock(isCrypted: bool, lockedBefore: bool, lockedAfter: bool) returns (ctx: UnlockContext)
      modifies this`requireUnlockSignals
      ensures fresh(ctx) && ctx.wallet == this
      ensures Context(ctx.valid, ctx.relock) == Requested(isCrypted, lockedBefore, lockedAfter)
      ensures requireUnlockSignals == old(requireUnlockSignals) + (if ctx.relock then 1 else 0)
    {
      var was_locked := GetEncryptionStatus(isCrypted, lockedBefore) == Locked;
      if was_locked {
        requireUnlockSignals := requireUnlockSignals + 1;
      }
      var valid := GetEncryptionStatus(isCrypted, lockedAfter) != Locked;
      ctx := new UnlockContext(this, valid, was_locked);
    }
  }

  /** The handle requestUnlock gives out: relocks the wallet when destroyed. */
  class UnlockContext {
    var wallet: WalletModel
    var valid: bool
    var relock: bool

    constructor(wallet: WalletModel, valid: bool, relock: bool)
      ensures this.wallet == wallet && this.valid == valid && this.relock == relock
    {
      this.wallet := wallet;
      this.valid := valid;
      this.relock := relock;
    }

    /** The destructor: locks the wallet again when valid and relocking. */
    method Destroy()
      modifies wallet`lockRequests
      ensures wallet.lockRequests == old(wallet.lockRequests) + (if Relocks(Context(valid, relock)) then [true] else [])
    {
      if valid && relock {
        wallet.SetWalletLocked(true);
      }
    }

    /**
     * Takes over `rhs`: copies its wallet and flags, then clears its relock
     * so that only this context relocks. Copying a context onto itself
     * leaves it without the obligation.
     */
    method CopyFrom(rhs: UnlockContext)
      modifies this, rhs`relock
      ensures wallet == old(rhs.wallet) && valid == old(rhs.valid)
      ensures !rhs.relock
      ensures relock == (old(rhs.relock) && this != rhs)
      ensures this != rhs ==>
        [Context(valid, relock), Context(rhs.valid, rhs.relock)]
        == CopyInto(old([Context(valid, relock), Context(rhs.valid, rhs.relock)]), 0, 1)
      ensures this == rhs ==> [Context(valid, relock)] == CopyInto(old([Context(valid, relock)]), 0, 0)
    {
      wallet, valid, relock := rhs.wallet, rhs.valid, rhs.relock;
      rhs.relock := false;
    }
  }
}
