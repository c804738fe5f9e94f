# Consensus parameters and the Qt wallet model, in Dafny

This project models two parts of the node:

- **Consensus parameters.** The consensus parameter record (`Consensus::Params`) with its BIP 9 deployment records. It includes the one accessor the record defines, `DifficultyAdjustmentInterval`.
- **Wallet model.** The logic of the Qt `WalletModel` that is not UI plumbing:
  - the pre-checks and status mapping of `prepareTransaction`;
  - the balance cache driven by `pollBalanceChanged`, `checkBalanceChanged` and `updateTransaction`;
  - the encryption-status classification;
  - the relock obligation carried by `UnlockContext`;
  - `getOutputs`.

Files:

- `fixed_width.dfy` (module `FixedWidth`):
  - the C++ fixed-width integer types, with `Amount` as an int64;
  - C++ int64 division, which rounds toward zero rather than using Dafny's Euclidean `/`.
- `consensus_params.dfy` (module `ConsensusParams`):
  - `DeploymentPos`, `BIP9Deployment` and the `Params` datatype, with every field of the struct;
  - `DifficultyAdjustmentInterval`;
  - the deployment bit mask;
  - `WellFormed`: the conditions the record's comments state, plus two that a usable parameter set needs. The spacing divides the timespan exactly, and the LWMA window spans at least two blocks.
- `wallet_send.dfy` (module `WalletSend`):
  - `prepareTransaction` as a loop, `PrepareTransaction`, proved equal to the specification function `Prepare`;
  - lemmas stating the outcome of each check.
- `wallet_model.dfy` (module `WalletModelState`):
  - the balance cache as a value (`CacheState`, with `Checked`, `Polled` and `Flagged`) and the invariants polling keeps;
  - encryption status and the relock bookkeeping of unlock contexts as values;
  - the classes `WalletModel` and `UnlockContext`. Their methods update fields as the C++ members do and are proved against the value-level functions.
- `wallet_outputs.dfy` (module `WalletOutputs`):
  - `getOutputs` as a loop appending to a caller-owned `OutputVector`;
  - the specification function `Selected`, with order, soundness and completeness lemmas.

Everything the wallet answers is an input of the model:

- address validity, as a function `string -> bool`;
- the spendable balance;
- the result of `CreateTransaction`, as a function of the outputs it is given;
- the six balance getters;
- `IsCrypted` and `IsLocked`;
- whether `TRY_LOCK` succeeded;
- the active chain height;
- `mapWallet`, with each transaction's depth in the main chain.

Emitted Qt signals are recorded as logs on the model object: `balanceChangedSignals` and `requireUnlockSignals`. So are calls to `setWalletLocked`, in `lockRequests`.

## Model

| member | source | states |
|---|---|---|
| `FixedWidth.Int64Div` | src/consensus/params.h:77 | C++ `/` on int64 for a non-zero divisor, without the overflowing INT64_MIN / -1: the remainder `a - q*b` is smaller in magnitude than `b` and has the sign of `a` (rounds toward zero) |
| `FixedWidth.Int64DivUnique` | src/consensus/params.h:77 | any quotient that rounds toward zero is the one `Int64Div` gives |
| `FixedWidth.Int64DivNegate` | src/consensus/params.h:77 | truncating division is odd in the dividend: `(-a)/b == -(a/b)` |
| `ConsensusParams.PosIndex` | src/consensus/params.h:18-23 | every deployment position indexes a slot below MAX_VERSION_BITS_DEPLOYMENTS |
| `ConsensusParams.PosAt` | src/consensus/params.h:18-23 | every slot below MAX_VERSION_BITS_DEPLOYMENTS belongs to a position |
| `ConsensusParams.PosIndexBijective` | src/consensus/params.h:18-23 | positions and vDeployments slots correspond one to one |
| `ConsensusParams.DifficultyAdjustmentInterval` | src/consensus/params.h:76-78 | defined when the spacing is non-zero and the quotient does not overflow; the result is `nPowTargetTimespan / nPowTargetSpacing` rounded toward zero |
| `ConsensusParams.IntervalCountsWholeSpacings` | src/consensus/params.h:76-78 | with positive spacing and non-negative timespan: `interval >= 0` and `interval*spacing <= timespan < (interval+1)*spacing` |
| `ConsensusParams.IntervalIsTruncatingQuotient` | src/consensus/params.h:76-78 | any quotient that leaves a remainder of the dividend's sign smaller in magnitude than the spacing is the interval: the accessor is truncating division |
| `ConsensusParams.IntervalReadsOnlyTimespanAndSpacing` | src/consensus/params.h:76 | the const accessor depends on the timespan and spacing fields only |
| `ConsensusParams.VersionMask` | src/consensus/params.h:29-30 | a deployment's mask `1 << bit` lies below VERSIONBITS_TOP_BITS |
| `ConsensusParams.VersionMaskSelectsOneBit` | src/consensus/params.h:28-30 | the mask has bit `i` set exactly when `i` is the deployment's bit |
| `ConsensusParams.SignallingVersion` | src/consensus/params.h:28-38 | a version signalling the deployment (`TOP_BITS + mask`) has the deployment's bit set and 001 in its top bits |
| `ConsensusParams.WellFormed` | src/consensus/params.h:49-57 | a usable record, as the comments describe it: the confirmation window equals timespan / spacing with a positive spacing, the threshold is within the window, and there is one deployment per position with a BIP 9 bit; the exact-divisibility and LWMA-window conjuncts are modelling assumptions (see Left out) |
| `ConsensusParams.WellFormedConsequences` | src/consensus/params.h:49-57 | in a well-formed record: the interval is defined and positive, interval × spacing is exactly the timespan (by the assumed exact divisibility), the activation threshold is at most the interval, and every position's bit lies in range and selects one bit |
| `ConsensusParams.DocumentedExample` | src/consensus/params.h:49-56 | two weeks at ten minutes is a 2016-block window; 1916 of 2016 is at least 95%, and the test chains' 1512 is 75% |
| `WalletSend.FirstFailure` | src/qt/walletmodel.cpp:196-207 | the per-recipient check only ever yields InvalidAddress or InvalidAmount |
| `WalletSend.ToCRecipients` | src/qt/walletmodel.cpp:211-215 | one output per recipient, in order, with the recipient's amount and fee flag |
| `WalletSend.PrepareTransaction` | src/qt/walletmodel.cpp:179-268 | the loop and the checks after it give exactly the outcome `Prepare` specifies: status, recorded fee and the position amounts are reassigned with |
| `WalletSend.EmptyRequestIsOk` | src/qt/walletmodel.cpp:187-189 | no recipients: OK, nothing created |
| `WalletSend.FirstFailingRecipientDecides` | src/qt/walletmodel.cpp:196-207 | if recipients before `k` pass and `k` fails, the result is InvalidAddress for a bad address (checked first), else InvalidAmount |
| `WalletSend.NoFailureIffAllPass` | src/qt/walletmodel.cpp:196-207 | the loop finds no failure exactly when every address is valid and every amount positive |
| `WalletSend.AddressesMembership` | src/qt/walletmodel.cpp:192-208 | the collected set holds exactly the recipients' addresses |
| `WalletSend.AddressCountDetectsDuplicates` | src/qt/walletmodel.cpp:191-222 | the set is never larger than the count, and smaller exactly when two recipients share an address |
| `WalletSend.DuplicateExtends` | src/qt/walletmodel.cpp:192-209 | a duplicate among all recipients is one among the earlier ones or a repeat of the last address |
| `WalletSend.DuplicateThenBalance` | src/qt/walletmodel.cpp:220-228 | once all recipients pass: DuplicateAddress exactly when an address repeats, else AmountExceedsBalance exactly when the total exceeds the balance; nothing created in either case |
| `WalletSend.CreationDecides` | src/qt/walletmodel.cpp:230-265 | after creation is attempted: on failure AmountWithFeeExceedsBalance iff no fee subtraction and total + fee > balance, else TransactionCreationFailed; on success AbsurdFee iff fee > maxTxFee, else OK; the fee is recorded; amounts are reassigned iff created and some recipient subtracts the fee |
| `WalletSend.OkIffSendable` | src/qt/walletmodel.cpp:179-268 | a non-empty request is OK exactly when all recipients pass, no address repeats, the total fits, and creation succeeded within the fee cap |
| `WalletModelState.Observed` | src/qt/walletmodel.cpp:126-136 | the compared figures are the wallet's, with the three watch-only ones zero when the wallet has no watch-only addresses |
| `WalletModelState.Checked` | src/qt/walletmodel.cpp:125-154 | afterwards the cache holds the observed figures; one signal carrying them is emitted exactly when some figure differed, otherwise nothing changes |
| `WalletModelState.OperationsKeepListenerAgreeing` | src/qt/walletmodel.cpp:99-159 | check, poll and updateTransaction keep the last emitted signal equal to the cache |
| `WalletModelState.PollingNeverRepeatsASignal` | src/qt/walletmodel.cpp:99-154 | both a direct checkBalanceChanged and a poll keep successive balanceChanged signals carrying different figures |
| `WalletModelState.PollWithoutLocksChangesNothing` | src/qt/walletmodel.cpp:103-110 | if either TRY_LOCK fails the poll changes nothing |
| `WalletModelState.PollDecides` | src/qt/walletmodel.cpp:112-122 | with both locks: when forced or at a new height, flag cleared, height cached, figures cached, at most one signal; otherwise nothing changes |
| `WalletModelState.UpdateTransactionForcesRecheck` | src/qt/walletmodel.cpp:156-159 | after updateTransaction the next locked poll re-checks even at an unchanged height |
| `WalletModelState.SecondPollAtSameHeightIsIdle` | src/qt/walletmodel.cpp:112-122 | a second poll at the same height does nothing even if the wallet's figures moved |
| `WalletModelState.CheckIsIdempotent` | src/qt/walletmodel.cpp:138-153 | checking twice against the same figures is checking once |
| `WalletModelState.GetEncryptionStatus` | src/qt/walletmodel.cpp:352-360 | Unencrypted iff not encrypted; Locked iff encrypted and locked; Unlocked iff encrypted and unlocked |
| `WalletModelState.RequestedRelocksOnlyWhatItUnlocked` | src/qt/walletmodel.cpp:463-474 | the context is valid iff the wallet is not left Locked, and it relocks iff the wallet was locked before the request and unlocked after |
| `WalletModelState.RelockCount` | src/qt/walletmodel.cpp:480-484 | no context relocks exactly when the count is zero |
| `WalletModelState.CopyInto` | src/qt/walletmodel.cpp:486-490 | the target gets the source's flags and the source loses its relock; copying onto itself only drops the relock |
| `WalletModelState.CopyMovesTheObligation` | src/qt/walletmodel.cpp:486-490 | a copy moves the source's relock to the target and removes the target's own, so the number of relocking contexts drops by the target's |
| `WalletModelState.CopiesNeverMultiplyRelocks` | src/qt/walletmodel.cpp:476-490 | after any sequence of copies no more contexts relock than before |
| `WalletModelState.WalletModel.constructor` | src/qt/walletmodel.cpp:32-40 | zero cached balances, height 0, flag clear, watch-only flag from the wallet |
| `WalletModelState.WalletModel.CheckBalanceChanged` | src/qt/walletmodel.cpp:125-154 | the new cache state is `Checked` of the old one |
| `WalletModelState.WalletModel.PollBalanceChanged` | src/qt/walletmodel.cpp:99-123 | the new cache state is `Polled` of the old one |
| `WalletModelState.WalletModel.UpdateTransaction` | src/qt/walletmodel.cpp:156-159 | only the force flag is set |
| `WalletModelState.WalletModel.SetWalletLocked` | src/qt/walletmodel.cpp:362-370 | records one lock or unlock request |
| `WalletModelState.WalletModel.RequestUnlock` | src/qt/walletmodel.cpp:463-474 | returns a fresh context on this model with the flags of `Requested`; requireUnlock is emitted once exactly when the wallet was locked |
| `WalletModelState.UnlockContext.constructor` | src/qt/walletmodel.cpp:476-478 | stores the wallet and both flags |
| `WalletModelState.UnlockContext.Destroy` | src/qt/walletmodel.cpp:480-484 | requests one relock exactly when the context `Relocks` |
| `WalletModelState.UnlockContext.CopyFrom` | src/qt/walletmodel.cpp:486-490 | takes the source's wallet and flags and clears the source's relock; the two contexts' flags change exactly as `CopyInto` says, so `CopyMovesTheObligation` applies to them; on self-copy the relock is lost |
| `WalletOutputs.Selected` | src/qt/walletmodel.cpp:509-521 | never more outputs than outpoints |
| `WalletOutputs.SelectedAppend` | src/qt/walletmodel.cpp:509-521 | outpoints are handled one at a time in order: selection of a concatenation is the concatenation of selections |
| `WalletOutputs.SelectedSound` | src/qt/walletmodel.cpp:510-520 | every output comes from an outpoint whose transaction is in the wallet at depth >= 0, with its index and depth, spendable, solvable and safe |
| `WalletOutputs.SelectedComplete` | src/qt/walletmodel.cpp:510-520 | every outpoint whose transaction is in the wallet at depth >= 0 gives its output |
| `WalletOutputs.NothingDroppedIffAllUsable` | src/qt/walletmodel.cpp:509-521 | as many outputs as outpoints exactly when every outpoint is usable |
| `WalletOutputs.OutputVector.PushBack` | src/qt/walletmodel.cpp:520 | appends one element |
| `WalletOutputs.GetOutputs` | src/qt/walletmodel.cpp:506-522 | the vector becomes its old contents followed by `Selected` of the outpoints; existing entries are untouched |

## Left out

- The LWMA retarget, the version-bits state machine and the reward schedule. The record only declares their parameters (src/consensus/params.h:58-86), so no behaviour is modelled for them.
- The `0.998` factor in the comment on `nZawyLwmaAdjustedWeight` is floating point and is not modelled.
- src/init.h only declares process start-up and shutdown functions.
- `VERSIONBITS_NUM_BITS` (29) and `VERSIONBITS_TOP_BITS` (0x20000000) are taken from BIP 9. versionbits.h is not part of this model. `WellFormed` restricts each deployment's bit to those 29 bits.
- `ConsensusParams.WellFormed`: params.h checks neither `nPowTargetTimespan % nPowTargetSpacing == 0` nor `nZawyLwmaAveragingWindow >= 2`. Both are assumptions of the model about a usable parameter set, and the exact product in `WellFormedConsequences` rests on the first.
- `ConsensusParams.WellFormed` does not require a non-empty `nPerCentPerYear` when a reward decay is configured, because the reward schedule that would define "configured" is not part of this model.
- The Qt plumbing is not modelled: the poll timer, signal connection (`subscribeToCoreSignals` and its counterpart) and the queued `invokeMethod` handlers. A `Q_EMIT` is a log entry.
- The `message` signal on a failed creation is not modelled.
- `transactionTableModel->updateConfirmations()` in the poll is not modelled: it refreshes a UI table.
- `TRY_LOCK` results are boolean inputs. `LOCK2` in `prepareTransaction` and `getOutputs` has no modelled effect.
- Foreign wallet and library calls are inputs:
  - `IsValidDestinationString`, the balance getters and `CreateTransaction`;
  - `GetDepthInMainChain`;
  - `IsCrypted`/`IsLocked`, and `Lock`/`Unlock`.
- `CreateTransaction` is a function of the outputs it is given. The real call also depends on wallet state and coin control, which stay fixed during one call.
- The unlock dialog behind `requireUnlock` is reduced to the wallet's locked state after the request.
- `WalletSend.ToCRecipients`: the output script is derived from the address by `GetScriptForDestination(DecodeDestination(...))`, which is not part of this model. The address stands in for the script.
- `WalletSend.PrepareTransaction` does not model int64 overflow of `total += rcp.amount` or of `total + nFeeRequired`. The model sums without bound, and the C++ overflow would be undefined behaviour.
- `WalletSend.PrepareTransaction` does not model the changes to the `WalletModelTransaction`:
  - `newPossibleKeyChange` is not modelled;
  - `setTransactionFee` is recorded as the outcome's fee;
  - `reassignAmounts` is recorded as the change position it is called with, and the amounts it recomputes are not modelled.
- `WalletModelState.WalletModel.constructor` relies on `Amount`'s default constructor being zero for the three watch-only caches, which the initializer list leaves out. amount.h is not part of this model.
- `WalletModelState.WalletModel.SetWalletLocked` records the request; the wallet's `Lock` and `Unlock` and their results are foreign.
- `WalletModelState.UnlockContext.CopyFrom`: `*this = rhs` is modelled as a memberwise copy. walletmodel.h, which declares the class's copy constructor and assignment operator, is not part of this model, so neither is modelled.
- `WalletOutputs.GetOutputs`: `COutput` refers to the wallet's transaction by address; the model keeps its id and a copy of its entry, so sharing of that transaction object is not captured.
- `sendCoins`, `updateStatus`, `updateWatchOnlyFlag`, `updateAddressBook` and the passphrase, backup, coin-locking, receive-request and `gArgs` members are outside the modelled core. So are the pass-through getters.
- `uint256` and `Amount` are bounded integers: 0 to 2^256-1 and the int64 range.
