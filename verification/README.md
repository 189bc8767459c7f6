# Token services and custom endorser: a verified model

This project models the three parts of the repository that carry state across several parties, and proves what they
promise.

* **Hash time-locked swaps between two token ledgers** (`tokens/owner`, `tokens/scripts/test_swap.sh`). A timed step
  system over one UTXO ledger per token management service (TMS). Every view works in three separate steps: it prepares
  a transaction from its own wallet view, collects endorsements, and has the transaction ordered. Anything may happen in
  between. The results hold for every run of that system.
* **The token accounting around it**: issue, transfer with change, redeem, balances in 64-bit arithmetic, the token
  database of a node, and the text form of quantities.
* **Two stores**: the identity binding store with its start-up loop, and the custom endorser's versioned world state with
  snapshot reads, read/write sets and two endorsers at different heights.

| file | content |
|---|---|
| `Basics.dfy` | bytes, `Option`, `Result` |
| `Deadlines.dfy` | from seconds to absolute deadlines, in 64-bit arithmetic |
| `Ledger.dfy` | one ledger: outputs, spending, validation, conservation |
| `World.dfy` | clock, ledgers, pending transactions, knowledge of pre-images; runs and their invariant |
| `Swap.dfy` | safety of both parties of a swap, also when they can only send claim requests |
| `SwapMargin.dfy`, `SwapRivals.dfy` | the safety margin is exact; a complete swap, and what a second lock under the same hash does |
| `SwapDisclosure.dfy` | the initiator's margin when endorsers may leak the pre-image |
| `HtlcWallet.dfy`, `Drain.dfy` | claim and reclaim from the wallet's view, which requests settle a lock; when every lock can be released |
| `Accounting.dfy`, `LockChecks.dfy` | balances per transaction, token selection; the recipient's checks on a lock |
| `Views.dfy` | the views themselves, as methods on a shared network |
| `Quantities.dfy`, `OwnerAccounts.dfy` | hex text of quantities; balances in 64-bit arithmetic |
| `TokenStore.dfy` | the token database that follows the ledger, the recipient's check, balances of reachable ledgers |
| `Bindings.dfy` | the binding store and the loop over configured identities |
| `Endorser.dfy` | the versioned key/value store, the sample executor, agreement of endorsers |

## How the source is read

The Token SDK, the Fabric SDK and the committer are not part of this model. Where the views rely on them, the model uses
what this repository's code, documentation and scripts say, in these readings:

* Validation, with its check of deadlines, happens when endorsements are collected (`tokens/README.md:119-123`,
  `tokens/diagrams/transfer_transaction.puml:38-54`). Ordering only decides whether the inputs are still unspent. The time
  between the two is the parameter `lag`; a transaction validated before a deadline may be committed after it.
* A script is expired from its deadline on: a claim is valid iff `now < deadline`, a reclaim iff `deadline <= now`. The
  source only says that a claim needs an unexpired script and a reclaim an expired one.
* The deadline of a lock is fixed by the lock call, as seconds from that moment (`tokens/owner/service/htlc_lock.go:42-43`).
* A pre-image becomes public when a claim with it is committed; endorsers see it before (`World.shown`), and what leaks from
  them is learnt in a step of its own. The hash is an arbitrary function `H`; that nobody finds
  another pre-image is the explicit hypothesis of the results about the initiator: `SecretKept` if endorsers are discreet,
  `SecretConfined` if they are not.
* A claim or reclaim request names a pre-image or a hash, never a lock. The results about requests are about the views;
  that the HTTP handlers refuse an empty pre-image or hash is part of `Views.OwnerNode.Claim` and `Reclaim` only.
* `GetExpiredByHash` yields one lock and is taken to fail unless exactly one expired lock matches, as the claim does
  explicitly (`tokens/owner/service/htlc_claim.go:47-49`).
* `script.Validate` (`tokens/owner/service/htlc_lock.go:147`) refuses an expired script; whatever else it checks is not
  modelled.
* The token database adds a node's own outputs when their transaction is committed and drops tokens when they are spent.
  Tokens under a script belong to no wallet. A token is identified by its position on the ledger.
* The single balance (`tokens/owner/service/fsc.go:107-111`) cuts a total of any size to 64 bits; for a total that does
  not fit, nothing is known of the result.
* A simulation store opened above the current height sees whatever blocks there are.
* The committer gives every write a version. The model only needs that a key never gets the same version twice
  (`Endorser.VersionsIdentify`); block and transaction numbers do that, and so do numbers that count the writes of a key.
* Selecting tokens yields any set of unspent tokens of the wallet that covers the quantity, and reports insufficient funds
  only when there is none.
* The binding store keeps one row per ephemeral identity, inserted if absent, and resolves the long-term identity first
  (`tokens/common/fsc.go:49-60`). As every endorsing identity is bound when its MSP is loaded, no configured pair binds the
  endorsing identity of a pair (`Bindings.Undisturbed`); what happens otherwise is `Bindings.OrderMattersWhenDisturbed`.
* What other nodes do between the steps of a view is `Views.Network.Interleave`: callers know only that it is some run of
  the step system that leaves their own transaction to them.
* A transaction's write set is a map, so one transaction writes a key at most once in a block (`Endorser.WritesOnce`).

## Where the code falls short of its documentation

* `tokens/README.md:444-448` calls a shorter responder deadline the safeguard of the swap. Deadlines run from the lock
  calls, so the durations alone decide nothing: `SwapMargins.MarginIsExact` gives the exact condition on the absolute
  deadlines, `SwapMargins.LongerDurationIsNotEnough` the counterexample for every pair of durations, and
  `SwapMargins.ScriptedSwapMargin` what is left of the scripted minute.
* The margin protects a responder whose claim goes through. A claim is refused while two unexpired locks match its
  pre-image (`tokens/owner/service/htlc_claim.go:47-49`), and anybody can add one: whatever the margin, the initiator can
  then keep the responder out until her deadline (`SwapRivals.RivalDefeatsResponder`). The responder's request succeeds
  exactly without such a rival (`Swaps.ResponderCanClaim`); with one such request in time the margin is exact again.
* In the same way an initiator whose request comes after the responder's lock has expired may hand out her secret for a
  decoy (`SwapRivals.DecoyDefeatsInitiator`); she is safe as long as she asks while that lock is open
  (`Swaps.InitiatorSafeByRequests`). If endorsers may leak what they are shown, an open lock is not enough either: her
  request, and the time it may take to be ordered, must end before the responder's deadline
  (`SwapDisclosures.RequestMarginIsExact`).
* `tokens/README.md:354-355` promises that the sender can reclaim after the deadline. A lock request repeated with the
  same hash can make two locks that no reclaim can tell apart (`Drains.RetriedLockCanGetStuck`);
  `Drains.DrainableIffSeparable` says exactly when the promise holds. Both rest on the reading of `GetExpiredByHash` above.
* `custom-endorser/service/service.go:213` logs the first argument of every answered proposal. A proposal without
  arguments, which the executor answers with a bad request, fails there (`Endorser.Service.ProcessProposal`, `Fault`).

## Model

| member | source | states |
|---|---|---|
| SwapMargins.MarginIsExact | tokens/README.md:444-448 | For every accepted pair of lock calls: no run of the system, whatever is interleaved, lets the initiator claim one lock and take back the other, if and only if the responder's absolute deadline plus ordering delay plus reaction time is at most the initiator's absolute deadline. This holds for a responder that is prompt, and for one that only sends claim requests, one of them in time and without a rival lock at that moment. |
| SwapMargins.LongerDurationIsNotEnough | tokens/scripts/test_swap.sh:191-193 | However much longer the initiator's duration is, there is a time of the responder's lock call at which the responder, though it sends a request in time that meets no rival, can lose both sides. |
| SwapMargins.OrderingDelayMustBeBounded | tokens/owner/service/htlc_claim.go:60-65 | Since a claim is validated first and ordered later, no choice of deadlines is safe against an unbounded ordering delay. |
| SwapMargins.ScriptedSwapMargin | tokens/scripts/test_swap.sh:194-211 | The scripted swap (120 and 60 seconds) is safe exactly when the gap between the lock calls, the ordering delay and the responder's reaction together fit into sixty seconds. |
| Swaps.ResponderSafe | tokens/scripts/test_swap.sh:191-225 | Over every run in which the responder is prompt and the margin holds, no reachable state has the responder's lock claimed and the initiator's reclaimed. |
| Swaps.ResponderCanClaim | tokens/owner/service/htlc_claim.go:43-58 | Once its lock is claimed and before the other deadline, the responder's claim request with the published pre-image settles the initiator's lock if and only if no other unexpired lock of that TMS names the same recipient and hash. |
| Swaps.RequestsArePrompt | tokens/scripts/test_swap.sh:201-225 | A responder that locks after seeing the initiator's lock and sends in time one request that meets no rival when it is made is prompt, whatever goes on while the request is under way and whatever rivals come and go. |
| Swaps.ResponderSafeByRequests | tokens/README.md:444-448 | Over every run with the margin, a responder that only sends claim requests, one of them in time and without a rival at that moment, never ends up with neither side. |
| SwapRivals.RivalDefeatsResponder | tokens/owner/service/htlc_claim.go:47-49 | For every accepted timing with the margin there is a run, made of requests only, in which a second lock under the hash makes every claim request of the responder be refused until the initiator's deadline, and the initiator gets both sides. |
| Swaps.InitiatorSafe | tokens/scripts/test_swap.sh:213-225 | Over every run in which the initiator's secret goes to the responder's lock until she holds it, her lock is claimed only if she has claimed the other; the pre-image is public only after that. |
| Swaps.InitiatorRequestsFollow | tokens/owner/service/htlc_claim.go:43-58 | An initiator who only sends claim requests, which take whatever lock matches, uses her secret for the responder's lock alone if and only if that lock is open and unexpired at each request. |
| Swaps.InitiatorSafeByRequests | tokens/scripts/test_swap.sh:213-218 | Over every run in which she asks only while the responder's lock is open, she does not lose her lock without having received his. |
| SwapRivals.DecoyDefeatsInitiator | tokens/scripts/test_swap.sh:89-112 | For every accepted timing in which the responder's deadline comes first there is a run in which her request, repeated after that deadline, takes a decoy; the responder takes his lock back and claims hers. |
| Swaps.SwapIsAtomic | tokens/README.md:400-407 | If both follow the protocol, two settled locks are both claimed or both reclaimed, and carried the agreed codes and quantities. |
| Swaps.SwapByRequestsIsAtomic | tokens/README.md:400-407 | The same for two parties that only send claim requests: one of the responder's in time without a rival at that moment, hers while the lock is open. |
| SwapRivals.SwapCanComplete | tokens/scripts/test_swap.sh:194-227 | For every accepted timing with the margin there is a run that meets all these hypotheses and ends with both locks claimed. |
| SwapDisclosures.InitiatorSafeWhenShown | tokens/owner/service/htlc_claim.go:56-65 | With endorsers that may leak: over every run in which she asks while the lock is open and early enough to be ordered before the responder's deadline, she does not lose her lock to a responder that takes his own back, and from that deadline on she holds his lock if hers is claimed. |
| SwapDisclosures.RequestMarginIsExact | tokens/owner/service/htlc_claim.go:60-65 | With endorsers that may leak, for every accepted timing and every last time to ask after the responder's lock call and before both deadlines: she is safe over all runs if and only if that time plus the ordering delay is before the responder's deadline. |
| SwapDisclosures.SwapIsAtomicWhenShown | tokens/README.md:400-407 | With endorsers that may leak, two settled locks are both claimed or both reclaimed, for parties that send requests: one of the responder's in time without a rival, hers early enough to be ordered before the responder's deadline. |
| Worlds.StepKeepsInv | tokens/README.md:119-129 | Every step keeps the invariant: spent locks were settled by the right party under the right condition, spent is what the history consumes, deadlines agree with their lock calls, endorsed transactions stay well formed, value is conserved; and nothing committed before is altered. |
| Worlds.RunKeepsInv | tokens/README.md:119-129 | The same for every run: whatever is interleaved, the invariant holds at the end and every ledger continues what it was. |
| Worlds.ConservationInEveryRun | tokens/README.md:98-106 | In every reachable state, per TMS and code: spendable plus locked value is what was issued minus what was redeemed. |
| Worlds.StepTouchesOneLedger | tokens/common/views/utils.go:45-63 | A step directed at one TMS leaves every other ledger unchanged, and only a commit changes any. |
| Worlds.LocksSettleOnce | tokens/owner/service/htlc_reclaim.go:43-62 | Any number of claims and reclaims prepared on stale views and committed in any order: at most one ever consumes a lock, properly, and for good. |
| HtlcWallets.ExactlyOneWayOut | tokens/README.md:354-355 | In every reachable world, a live lock can be settled by some claim request if and only if it is unexpired, its hash has a pre-image and no other unexpired lock has the same recipient and hash; by some reclaim request if and only if it is expired and no other expired lock has the same sender and hash; requests are runs, and no transaction of anybody else consumes it. |
| HtlcWallets.ListedAre | tokens/owner/service/htlc_claim.go:43-49 | The locks that a claim or a reclaim request matches, written out: unspent, of this recipient or sender, with this hash, unexpired or expired. |
| HtlcWallets.ClaimSettlesIff | tokens/owner/service/htlc_claim.go:43-58 | A given claim request settles a given live lock exactly when wallet, pre-image and time fit and the lock has no rival. |
| HtlcWallets.ReclaimSettlesIff | tokens/owner/service/htlc_reclaim.go:43-55 | A given reclaim request settles a given live lock exactly when wallet, hash and time fit and the lock has no rival. |
| Ledgers.TxBalances | tokens/README.md:101-106 | A valid transaction of any kind creates what it consumes plus what it issues minus what it redeems, for every code. |
| Ledgers.ApplyConserves | tokens/owner/service/fsc.go:257-267 | Committing a validated transaction keeps spendable plus locked plus redeemed equal to issued. |
| Ledgers.ShapeStable | tokens/owner/service/htlc_claim.go:56-65 | A transaction validated earlier stays well formed, with the same inputs and outputs, while others are committed. |
| Ledgers.ApplyLog | tokens/scripts/test.sh:248-252 | Spent is exactly what the committed transactions consume and no two of them share an input. |
| Drains.DrainableIffSeparable | tokens/README.md:354-355 | By waiting and reclaiming, the senders can release every lock if and only if no two locks of one sender with one hash on one TMS become reclaimable at the same moment. |
| Drains.DistinctHashesDrain | tokens/README.md:378-389 | With hashes distinct per sender and TMS, every state can be driven to no live locks. |
| Drains.ExpiredTwinsAreStuck | tokens/owner/service/htlc_reclaim.go:43-46 | Two expired locks of one sender with the same hash stay locked under every sequence of claims and reclaims. |
| Drains.ExpiredTwinsAreStuckInRuns | tokens/owner/service/htlc_reclaim.go:43-62 | The same over every run, whatever is interleaved, in which claims and reclaims are prepared from a single match and nothing under way at the start takes the two. |
| Drains.RetriedLockCanGetStuck | tokens/scripts/test_swap.sh:89-112 | Such a pair is reachable for any parties, any hash, any durations and any pause between a lock request and its repetition. |
| Drains.PerformIsRun | tokens/owner/service/htlc_claim.go:37-68 | Sequences of whole requests are runs of the step system, so every result about runs covers them. |
| HtlcWallets.ClaimIsRun | tokens/owner/service/htlc_claim.go:43-67 | An undisturbed claim request is a run of preparing, endorsing and committing. |
| HtlcWallets.ReclaimIsRun | tokens/owner/service/htlc_reclaim.go:43-64 | An undisturbed reclaim request is a run of preparing, endorsing and committing. |
| HtlcWallets.RetriedLockAndClaim | tokens/owner/service/htlc_claim.go:47-49 | For any number of locks with one recipient and hash, at any time: a claim succeeds if and only if all but one have expired, and then takes that one; otherwise it changes nothing. |
| Views.OwnerNode.Claim | tokens/owner/service/htlc_claim.go:37-68 | Without a pre-image, a wallet or exactly one unexpired match nothing changes; otherwise the one match is settled and credited in full, or the claim had no effect and the match was spent or expired meanwhile; everything in between is a run. It keeps the contract of a claim request that the swap results assume. |
| Views.OwnerNode.Reclaim | tokens/owner/service/htlc_reclaim.go:37-65 | With exactly one expired match, this lock comes back to the sender in full, or the reclaim had no effect and somebody else has settled the lock; otherwise nothing changes. |
| Views.OwnerNode.LockUnder | tokens/owner/service/htlc_lock.go:77-108 | A successful lock is an unspent output naming the sender, the recipient, the reported hash and a deadline counted from the call, with the code and quantity asked for, and debits exactly that; a failed one had no effect, and failed because an input was spent by somebody else or the deadline passed. |
| Views.OwnerNode.Lock | tokens/owner/routes/routes.go:187-214 | Exactly: a bad request for seconds out of range or a hash of wrong length, else wallet not found, else insufficient funds, each without any change; a later failure had no effect; on success the new output is the lock asked for, with its parties, hash, deadline, code and quantity written out; a pre-image is reported exactly when no hash was supplied and then hashes to the reported value. |
| Views.PlacedLockIsClaimable | tokens/owner/service/htlc_lock.go:150-155 | As long as such a lock is unspent, a claim request settles it if and only if it comes from the recipient, with a pre-image of the hash, before the deadline, and no other unspent unexpired lock names the same recipient and hash. |
| Views.PlacedLockIsReclaimable | tokens/owner/service/htlc_reclaim.go:43-55 | In the same way, a reclaim request settles it if and only if it comes from the sender, with the hash, from the deadline on, and no other unspent expired lock names the same sender and hash. |
| Views.OwnerNode.Transfer | tokens/owner/service/fsc.go:303-375 | Refused exactly when the balance does not cover the quantity; on success every balance of every wallet and code is as before but for the quantity moved; a later failure had no effect and means that somebody else spent an input. |
| Views.OwnerNode.Redeem | tokens/owner/service/fsc.go:229-281 | Refused exactly when the balance does not cover the quantity; on success exactly the quantity leaves the sender's balance and counts as redeemed; a later failure had no effect and means that somebody else spent an input. |
| Views.OwnerNode.ClaimWithRetry | tokens/scripts/test_swap.sh:89-112 | What the loop does, attempt by attempt: every attempt is a claim request with that request's own outcome, each following on the one before; it ends with the first good answer that arrives, or as a failure after exactly the allowed attempts; success means a committed claim, and no output is ever consumed twice. |
| Views.IssuerNode.Issue | tokens/issuer/service/fsc.go:107-172 | Fails without effect exactly without an issuer wallet; otherwise issues exactly the quantity to exactly the recipient, counts it as issued, and leaves every other balance alone. |
| Views.Network.Submit | tokens/owner/service/htlc_claim.go:60-67 | Collecting endorsements and ordering take effect as a whole or not at all, decided by validity at endorsement and by unspent inputs at commit: on failure the world is what the steps of others made of it, in which the transaction prepared here had no effect. |
| Views.OwnEffectShows | tokens/README.md:125-129 | That is not vacuous: where nothing else is under way, a transaction that took effect cannot pass for one that had none. |
| Views.Network.CollectEndorsements | tokens/README.md:119-123 | A transaction is endorsed exactly when it is valid now; the lock recipient's own checks never turn down a valid lock; the endorsers have seen the pre-image of a claim either way. |
| Views.Network.OrderAndFinality | tokens/README.md:125-129 | A commit takes effect exactly when all inputs are still unspent. |
| Accounting.BalanceAfter | tokens/README.md:100-106 | A commit changes the balance of any wallet and code by what its outputs bring minus what its inputs take. |
| Accounting.TransferBalances | tokens/owner/service/fsc.go:344-357 | A transfer moves exactly the quantity; the rest of the inputs comes back as change, also when sender and recipient coincide. |
| Accounting.RedeemBalances | tokens/owner/service/fsc.go:257-266 | A redemption takes exactly the quantity from its sender and touches no other balance. |
| Accounting.LockBalances | tokens/owner/service/htlc_lock.go:87-90 | A lock takes exactly the quantity from the sender's spendable balance and nobody gains it. |
| Accounting.CreditBalances | tokens/scripts/test.sh:223-249 | Issue, claim and reclaim credit the recipient, the lock's recipient and the lock's sender in full, and nobody else. |
| Accounting.SelectionIffCovered | tokens/owner/service/fsc.go:352-357 | Unspent tokens covering a quantity exist exactly when the wallet's balance of the code covers it. |
| LockChecks.AcceptLock | tokens/owner/service/htlc_lock.go:141-155 | A lock is accepted exactly when its transaction has one script output, unexpired, naming the accepter as recipient and the partner as sender; each refusal names a condition that fails. |
| LockChecks.OneScript | tokens/owner/service/htlc_lock.go:141-146 | Counting one script output means there is exactly one in the transaction, and it is the one that is checked. |
| LockChecks.ReportedHashIsAccepted | tokens/owner/service/htlc_lock.go:104-108 | The script reported to the locker is the one the recipient accepted exactly when output 0 is a script. |
| LockChecks.LockIsAcceptable | tokens/owner/service/htlc_lock.go:87-94 | The transaction of a lock request passes the recipient's checks exactly while its deadline is ahead. |
| Deadlines.ToDeadlineExact | tokens/owner/routes/routes.go:172-179 | Exactly 1 to 9223372036 seconds are accepted, which is exactly when the nanoseconds fit in a signed 64-bit integer, and the result is the true product. |
| Deadlines.ToDeadlineKeepsGaps | tokens/owner/service/htlc_lock.go:87 | A gap of n seconds between two accepted deadlines is a gap of exactly n * 10^9 nanoseconds, and the order is kept. |
| Quantities.HexRoundTrip | tokens/common/views/utils.go:34 | Reading back the stored hex text gives the number for every 64-bit quantity, and a range error, never a wrapped value, for every other. |
| Quantities.HexStringsExact | tokens/owner/service/fsc.go:82-85 | A text after 0x is accepted with a value exactly when it is non-empty, all hex digits apart from underscores that are each followed by a digit, and stands for that value below 2^64. |
| Quantities.UnderscoresPassed | tokens/owner/service/fsc.go:82 | The digit loop reads a text with underscores as the text without them, in every base. |
| Quantities.HexIsInjective | tokens/common/views/utils.go:34 | Comparing stored texts compares quantities. |
| Quantities.HexIsCanonical | tokens/common/views/utils.go:34 | Quantities are written in lower case and without leading zeros. |
| Quantities.HexDigitTable | tokens/owner/service/fsc.go:82 | Which characters are hex digits, in either case, and what they stand for. |
| Quantities.DecimalExact | tokens/owner/service/fsc.go:82 | A text without prefix, leading zero and underscores is read in base ten, exactly. |
| Quantities.BinaryExact | tokens/owner/service/fsc.go:82 | A text after 0b, without underscores, is read in base two, exactly. |
| Quantities.OctalExact | tokens/owner/service/fsc.go:82 | A text after 0o, without underscores, is read in base eight, exactly. |
| Quantities.LeadingZeroExact | tokens/owner/service/fsc.go:82 | A text after a leading zero, without underscores, is read in base eight, exactly. |
| Quantities.ParseDigitsExact | tokens/owner/service/fsc.go:82 | The digit loop with its 64-bit overflow checks computes the true value in every base, or a range error exactly when that needs more than 64 bits. |
| OwnerAccounts.Balances | tokens/owner/service/fsc.go:80-93 | Fails exactly when some quantity is unreadable; otherwise one amount per code present, each the true total modulo 2^64. |
| OwnerAccounts.BalanceAgrees | tokens/owner/service/fsc.go:107-111 | For a code with tokens, the single balance is among the listed amounts, whatever the cut to 64 bits does to larger totals, if and only if the total fits in 64 bits; a code without tokens has balance zero and is not listed. |
| OwnerAccounts.BalancesIgnoreOrder | tokens/owner/service/fsc.go:80-93 | Token lists that are permutations of each other give the same amounts. |
| OwnerAccounts.TotalIgnoresOrder | tokens/owner/service/fsc.go:81-87 | The total of a code is the same for every order of the tokens. |
| TokenStores.BalancesAgreeWithLedger | tokens/owner/service/fsc.go:75-93 | For every ledger of every run and a database that followed its log: the reported balances of a wallet, tokens listed in any order, are the ledger's modulo 2^64, the true ones exactly when they fit in 64 bits, and no code that the wallet holds is missing. |
| TokenStores.StoreAgreesWithLedger | tokens/README.md:127-129 | For every ledger of every run, the database that followed its log lists exactly the unspent tokens whose owner is a wallet of the node, with the owner, code and quantity they have on the ledger. |
| TokenStores.RowsAreOwn | tokens/common/views/utils.go:36-40 | After any committed log, every row of the database belongs to a wallet of the node. |
| TokenStores.LogMirrors | tokens/common/views/utils.go:25-42 | The same by induction over every sequence of committed transactions. |
| TokenStores.ReachableHistory | tokens/README.md:125-129 | Outputs and spent inputs of every reachable ledger are those of its log, each transaction spending earlier outputs not spent before. |
| TokenStores.AssertTokens | tokens/common/views/utils.go:21-43 | Passes exactly when each output owned by a wallet of the node is stored once with its quantity and type and no other output is stored. |
| TokenStores.CheckPassesIff | tokens/common/views/accept.go:61-62 | Against a database that followed the committed transactions, the check passes exactly when none of the transaction's own outputs has been spent again. |
| TokenStores.AssertedTokensReadBack | tokens/common/views/utils.go:29-35 | What passes the check is read back by the balance code with the quantity it has on the ledger. |
| TokenStores.OwnerStore.AcceptCash | tokens/common/views/accept.go:19-65 | Refused exactly when nothing comes to the accepter; a transaction found among the committed ones goes from pending to confirmed and the view completes exactly when none of its outputs owned by a wallet of the node is spent by then; one that is not found is deleted and leaves no token behind; the database follows every transaction that arrives meanwhile. |
| TokenStores.OwnerStore.Process | tokens/README.md:127-129 | A committed transaction takes the database from the log before it to the log with it: own outputs are added, spent tokens dropped. |
| TokenStores.OwnerStore.WalletBalances | tokens/owner/service/fsc.go:71-93 | Lists the wallet's tokens of the database, each once, and reports their balances, failing exactly on an unreadable quantity. |
| Bindings.BindEndorsingIdentities | tokens/common/fsc.go:81-95 | For every iteration order and every subset of unconfigured labels: old rows never change and the new rows are exactly the fresh P2P identities of configured names; exactly the configured pairs are bound, one after the other; and unless a pair binds the endorsing identity of a pair, each new row holds what the endorsing identity of such a name stands for. |
| Bindings.OrderMattersWhenDisturbed | tokens/common/fsc.go:81-95 | Where a fresh P2P identity is the endorsing identity of another fresh pair, the two orders give the same store exactly when the first stands for itself. |
| Bindings.BindingStore.Bind | tokens/common/fsc.go:49-60 | Inserts the ephemeral identity if absent, under the resolved long-term identity, and changes nothing else. |
| Bindings.OrderIrrelevantIff | tokens/common/fsc.go:81-95 | Unless a pair binds the endorsing identity of a pair, all iteration orders give the same store if and only if pairs that share a fresh P2P identity share their long-term identity. |
| Bindings.DefaultIdentityBindsAll | tokens/common/fsc.go:50-60 | When the endorsing identities stand for the node's default identity, as after start-up, every configured pair with a fresh P2P identity ends up bound, in any order. |
| Bindings.PairBoundIff | tokens/common/fsc.go:41-47 | Unless a pair binds the endorsing identity of a pair, and whenever pairs that share a fresh P2P identity agree on its long-term identity, a configured pair ends up bound exactly when its P2P identity was fresh or the pair was bound before. |
| Bindings.BindKeepsFlatIff | tokens/common/fsc.go:57-60 | One bind keeps a flat store flat (every long-term id its own) exactly when the ephemeral identity has a row already, or is the long-term identity itself, or is nobody's long-term id yet. |
| Bindings.LoopKeepsFlatIff | tokens/common/fsc.go:57-60 | Under the same conditions, the whole loop keeps a flat store flat exactly when no fresh P2P identity is somebody else's long-term id. |
| Bindings.Direction | tokens/common/fsc.go:49-60 | Binding the endorsing identity as the ephemeral one is a silent no-op that leaves the pair unbound (unless the P2P identity happens to be the registered long-term one); the chosen direction makes both resolve to the registered long-term identity. |
| Endorser.RowsRefineReplay | custom-endorser/service/service.go:145-150 | Looking up the last stored row of a key is looking it up after replaying all committed blocks. |
| Endorser.RowsUpTo | custom-endorser/service/service.go:62-64 | The rows of the first blocks stay a prefix as blocks are added, and block numbers tell exactly where they end. |
| Endorser.VersionedDB.Get | custom-endorser/service/service.go:189-192 | Reading a key at a height gives what replaying that many blocks gives, however many blocks there are by now. |
| Endorser.SimulationStore.constructor | custom-endorser/service/service.go:62-64 | A store opens at the requested height, 0 meaning the current one, with empty read and write sets. |
| Endorser.SimulationStore.GetState | custom-endorser/cmd/endorser/executor.go:41-46 | Reads the snapshot at the store's height and records the version read; an absent key reads as empty. |
| Endorser.SimulationStore.PutState | custom-endorser/cmd/endorser/executor.go:58-62 | A write goes to the write set only. |
| Endorser.SimulationStore.DelState | custom-endorser/service/service.go:57 | A deletion goes to the write set only. |
| Endorser.Simulate | custom-endorser/service/service.go:47-60 | For any program of reads, writes and deletions, with blocks arriving before each operation: the keys written are those of its writes and deletions, each with what the last of them says; the keys read are those of its reads, with their versions at opening; and the values are those at opening, read by read. |
| Endorser.SimulationsAgreeIff | custom-endorser/README.md:56-59 | For any such program, endorsers at two heights get the same read/write set if and only if they see the same version of every key it reads, and then the same values. |
| Endorser.CommittedWrites | custom-endorser/service/service.go:52-60 | Committing a write set puts and deletes exactly what it says and leaves every other key and namespace as it was. |
| Endorser.Execute | custom-endorser/cmd/endorser/executor.go:22-70 | Without an answer exactly when the store fails. A get reads exactly its key with the version at opening, writes nothing and answers the value; a set reads nothing, writes exactly its key and answers key=value; everything else is a bad request with its own message. This holds for every sequence of blocks added while it runs, and the world state grows by these blocks alone. |
| Endorser.GetLeavesAll | custom-endorser/README.md:71-72 | Committing what a get writes changes no key. |
| Endorser.Service.ProcessProposal | custom-endorser/service/service.go:165-216 | Each refusal has its own condition: a proposal that does not parse, the wrong channel, an unknown namespace, a failing store or signature, no arguments; otherwise it is answered with the default version filled in, and for a get and a set with exactly the reads, writes and payload of that request; a proposal never changes the world state. |
| Endorser.VersionDeterminesEntry | custom-endorser/README.md:56-59 | Along one chain, in any scheme in which a key never gets one version twice, equal versions of a key at two heights mean equal values. |
| Endorser.PlacesIdentify | custom-endorser/service/service.go:103-109 | Versions made of block and transaction number are such a scheme. |
| Endorser.SerialsIdentify | custom-endorser/service/service.go:103-109 | Versions that count the writes of a key are such a scheme. |
| Endorser.EndorsersAgreeIff | custom-endorser/README.md:56-59 | In any such scheme, endorsers at two heights give the same read/write set and payload if and only if the proposal is not a read or both see the same version of the key. |
| Endorser.SetThenGet | custom-endorser/service/service_integration_test.go:354-360 | Once the write set of a set proposal is committed, a get answers with the value, over any earlier value. |
| Endorser.SetLeavesOthers | custom-endorser/cmd/endorser/executor.go:52-65 | That commit leaves every other key and every other namespace as it was. |

## Left out

- HTTP handlers, JSON, generated code, CORS, flags, signals, health and readiness endpoints: plumbing.
- Zero-knowledge proofs, signatures, idemix, MSP, TLS and SHA-256 itself: identities are wallet names, the hash is a function parameter.
- The internals of the Token SDK, the Fabric SDK, the ordering service and the committer; which scheme of versions `monotonicVersions` selects; the signing and the logs and events of an endorsement.
- Failures of databases, of contacting another node and of looking up the recipient of a transfer or an issuer for a redemption: each ends the request before it is submitted.
- Identity exchange and the binding of a recipient's wallet name to its node.
- Widths of quantities on the ledger: they are natural numbers there, 64-bit in the text form and the balances.
- `GetTransactions`, `OwnerAccount`, `toTMSID`, `ServiceOpts`, `TxOpts`, polling for balances: they pass on values.
- How tokens are selected and locked against concurrent selection on the same node: any covering selection is allowed.
- Bindings.BindingStore.Bind: failures of the store, which the loop only logs, are not modelled.
- Endorser.VersionedDB.Get: rows are searched in a list, not through the indexes of a database.
- TokenStores.OwnerStore.AcceptCash: the status checks of the view are not repeated, the model sets the status itself.
- Swaps.ResponderSafeByRequests: that one request in time meets no rival is a hypothesis, as nothing in the code prevents one.
- SwapDisclosures.InitiatorSafeWhenShown: that her validated claims are ordered within the ordering delay is a hypothesis, only a request that was not validated may be given up; a claim that was shown and whose ordering fails is outside it.
- Views.OwnerNode.ClaimWithRetry: the pauses between attempts are part of what others do in between.
