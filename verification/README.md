# Verified model of the relayer core

A Dafny 4.11 model of the hard core of the cross-chain relayer, with proofs. `dafny verify dfyconfig.toml` checks all of it.

The relayer scans the confirmed blocks of every chain for deposits, turns each deposit into a message, adjusts ERC20 amounts to the destination's precision, and votes for a proposal on the destination chain. Its state machines are modelled together with everything that can go wrong around them: nodes, contracts and the database answer or fail in any order, an event handler or a processor may panic, and a process may die between any two steps.

| files | content |
|---|---|
| `Bytes`, `Decimals`, `Messages` | big-endian byte strings, padding and int64 narrowing; powers of ten and the scaling of amounts; the values that travel |
| `DepositData`, `EventHandlers`, `MessageProcessors`, `MessageHandlers`, `DepositPipeline` | calldata constructors, parsers, decimal adjustment, re-encoders, and what they amount to in sequence |
| `BigInts`, `Stores` | mutable big integers; the block and nonce stores on one key-value store |
| `BlockScan`, `EVMListener`, `EVMChain`, `CrashRecovery`, `Handover` | the windowed block scanner as a function of its answers, the loop in its imperative form, one launch of a chain, whole runs with crashes and restarts, and such runs together with the goroutine the messages are handed to |
| `Progress`, `HeadStart` | what such runs can still achieve: which deposits can be received, which blocks completed and passed, from a stored or configured block and from the head |
| `SubstrateScan`, `SubstrateListener` | the one-block scanner of Substrate chains, as a function and as a loop |
| `Identifiers`, `Voter`, `PendingVotes` | proposal identifiers, the voting decision and its calls, the pending-vote counter under all interleavings |
| `Forwarder`, `NonceRuns` | the nonce manager with the transaction around it, and whole runs of it |
| `Relayer`, `RelayerRuns`, `Delivery` | registration and routing, the interleavings of the goroutines around the unbuffered channels, and the way of a deposit to the chain it is written to |

Code that updates state step by step is modelled by methods and classes, each proved to compute a function on values; the properties are then proved of that function. Runs are sequences of events; an event that does not apply changes nothing, so a statement about every sequence of events is a statement about every run.

Remote answers are parameters: heads, logs, handler answers, contract nonces, statuses, thresholds, receipts, and whether each call, read and write succeeds. Endless loops run over a finite sequence of answers of any length, which ends when the listener is stopped. Hashes are represented by what is hashed. Sleeps and logging do nothing. go-ethereum's `LeftPadBytes`, `PaddedBigBytes` and `ReadBits`, and Go's `big.Int`, are not part of the repository; they are modelled by their documented behaviour.

Places where the code does not have a property one might expect; each is stated with its exact condition or with a run that shows it:

- Scans that start at the head (`latest`) leave gaps over restarts, and no others do (`GaplessUnlessLatest`).
- One deposit can stop the scan for good. ERC721 calldata whose declared lengths do not fit makes the parser panic, which ends the process, and every restart comes back to it: a block can be completed, and passed, exactly when no deposit from the first start through it panics (`CompletableExactly`, `PassableExactly`; a declared length of 2^63 does it whatever lies behind the calldata, `OneDepositStopsTheScan`). The deposits in front of it are sent again at every restart (`ReceivableAnyNumberOfTimes`). A failing look-up of its handler is what lets such a deposit pass, as an error. A listener that starts at the head only loses the rest of that block and what passes meanwhile (`ReceivableFromHead`, `CompletableFromHead`).
- No block is skipped, but a deposit can be. The block store can be ahead of what the relayer received: a message that PollEvents holds when the process dies, and equally a deposit whose handler returned an error, be it a transient one, can still be received exactly as long as a restart begins at or in front of its block (`ReceivableUnlessStoredPast`, `HeldMessageSurvivesExactly`, and with panicking deposits `ReceivableExactly`; `DepositCanBeLost` is a run that loses one either way).
- Deposits are not received once. Each restart may hand one over again, any number of times (`ReceivableAnyNumberOfTimes`), but a single life of the process never does (`OncePerLife`).
- Declared ERC721 lengths of 2^63 or more are truncated and written back truncated (`Erc721Truncation`, `Erc721LengthTruncated`); lengths that reach past the calldata but not past its capacity copy foreign bytes into the proposal (`Erc721Prefix`). Calldata and handler response are decoded as slices of one buffer, so these are the padding and the response: `Erc721SpareBytes` turns 65 bytes of calldata into 97 of proposal, `Erc721TakesResponse` makes the response part of the recipient.
- An amount scaled past 2^256 makes the proposal's amount field longer than a word (`Erc20EndToEnd`, `Erc20AmountOutgrowsWord`).
- The two processors with configured decimals do not look at the message type: they rescale token IDs of ERC721 deposits, and keep exactly those between equal precisions and the ID zero (`Erc721TokenIdRescaled`).
- The uint8 sum of confirmed and pending votes can wrap below the threshold (`WrapHidesVotes`), and deleting a counter while transactions are in flight leaves it wrapped below zero (`LeftoverAfterDeletion`); together they make the voter vote although the threshold is met (`LeftoverHidesVotes`).
- Identifiers of nonces above 2^63 collide with those of smaller nonces (`IdInjective`, `OppositeNoncesCollide`).
- A failed first load of the nonce makes the deferred unlock panic (`Forwarder.MinimalForwarder.UnlockNonce`). Sent nonces never decrease exactly when no store fails, because a single failed store followed by a crash lets a smaller nonce be sent (`NeverDecreaseExactly`, `SmallerNonceAfterOneFailedStore`). The comment at `UnlockNonce` promises the stored nonce to be the correct one.
- A Substrate block loses all its messages, and the launch does not scan it again, exactly when a subscribed event of it cannot be handled or a required metadata update fails (`LosesBlockExactly`, `HandleEventsExact`; `OneBadEventLosesBlock` is one). The message of the error raised for short ERC721 calldata names 84 bytes; the check is for 64, and the model follows the check.

## Model

| member | source | states |
|---|---|---|
| BlockScan.WindowConfirmed | chains/evm/listener/listener.go:70-78 | every window fetched is non-empty, ends at least the block delay below the head, and spans at most the allowed number of blocks |
| BlockScan.AtMostHundredBlocks | chains/evm/listener/listener.go:69-78 | the listener asks exactly when the head is the delay ahead, for at most 100 blocks, and up to the last confirmed one unless that is further |
| BlockScan.OnlyConfirmed | chains/evm/listener/listener.go:65-108 | over all runs the scan has only moved over blocks that were the delay below some head it saw |
| BlockScan.StepRefines | chains/evm/listener/listener.go:65-108 | one iteration of the windowed scanner is, in calls, messages and unless it panics in the whole state, a one-block scanner given the same answers once per block |
| BlockScan.WindowedScanRefinesBlockScan | chains/evm/listener/listener.go:53-109 | for all heads, failures and handler answers, scanning in windows makes the same handler calls and sends the same messages as scanning block by block, crashes exactly when that does, and otherwise ends at the same position with the same stored block |
| BlockScan.ScannedExactlyOnce | chains/evm/listener/listener.go:80-108 | within a launch the event handler is called exactly once, in order, for each log from the start to the position, or on into the next window up to a call that panics, which is the last one; the messages are its successes; the stored block was found at launch or scanned |
| BlockScan.CrashesExactly | chains/evm/listener/listener.go:65-96 | over all heads and failures a launch, from a given block or from the head, crashes exactly when a deposit the handler panics on lies between its start and where heads, delay and failures would have taken it, and otherwise is there |
| BlockScan.CatchesUp | chains/evm/listener/listener.go:65-108 | with a fixed head and no failure the scan, from a given block or from the head, advances once per window of its backlog and is idle with no backlog from then on, unless, and exactly if, it meets a deposit the handler panics on |
| BlockScan.RoundsIsQuotient | chains/evm/listener/listener.go:74-78 | the windows of a backlog are ceil(backlog / window) |
| EVMListener.ListenToEvents | chains/evm/listener/listener.go:43-113 | the imperative loop over mutable big integers, including the start block aliased to the head and the panic of a handler, computes the scan and leaves other domains' blocks and all nonces alone |
| EVMListener.Iterate | chains/evm/listener/listener.go:58-108 | the loop body is one step of the scan |
| EVMListener.EndBlock | chains/evm/listener/listener.go:69-78 | the window's end is the smaller of the last confirmed block and start + 99; none while the head is not the delay ahead |
| EVMListener.HandleLogs | chains/evm/listener/listener.go:87-96 | the messages sent are the successful answers for the logs, in order, up to a panic, which is reported exactly when one of the logs causes it |
| EVMChain.PollEvents | chains/evm/chain.go:89-116 | a launch fails exactly when the store is needed and cannot be read, as in the runs; else it scans from the chosen block, forwards every message in order, panics exactly when the scan does, and moves the configured start block itself when it starts there |
| CrashRecovery.NextKeepsInv | chains/evm/listener/listener.go:53-109 | every step of a run, panic, crash and restart included, keeps the completed blocks an interval that bounds the position and the stored block |
| CrashRecovery.NoGapAcrossCrashes | chains/evm/listener/listener.go:53-109 | over every run not starting at the head the complete blocks form one interval from the first start, a block with logs is complete exactly when all its logs were handled, the stored block is complete, and no scan or restart continues beyond the interval |
| CrashRecovery.StoredNeverDecreases | store/blockstore.go:57-78 | with restarts from the store no step lowers the stored block |
| CrashRecovery.LatestLeavesGap | store/blockstore.go:59-62 | a run of a listener that starts at the head, with a restart, leaves blocks out |
| CrashRecovery.GaplessUnlessLatest | store/blockstore.go:57-78 | all runs on all chains are gapless exactly when the listener does not start at the head |
| CrashRecovery.IterationIsStep | chains/evm/listener/listener.go:58-108 | without a crash from outside, the small steps of an iteration move position and stored block as the scan's step does, end the process where that crashes, and hand over exactly the logs whose calls returned |
| Handover.ListenerRuns | chains/evm/listener/listener.go:53-109 | runs with the receiving goroutine are, for the listener, among the runs above |
| Handover.EveryLogAccountedFor | chains/evm/chain.go:104-115 | over every run with crashes and panics, each handled log was rejected by its handler, received by the relayer, is the one message PollEvents holds, or was held when the process died; each death loses at most one |
| Handover.CompleteBlocksAccountedFor | chains/evm/chain.go:104-115 | hence so is every log of every complete block |
| Handover.NeverReceivedAgain | store/blockstore.go:57-78 | a log in front of the block a restart begins with is not received again in any continuation, except for the message PollEvents holds |
| Handover.OncePerLife | chains/evm/listener/listener.go:80-108 | within one life of the process the relayer receives logs in strictly increasing order, so over a run it receives each at most once more often than the process died |
| Handover.DepositCanBeLost | chains/evm/listener/listener.go:89-106 | a run in which a deposit is lost, held at the crash or rejected by its handler, although its block is complete, whatever follows |
| Progress.ReceivableExactly | chains/evm/listener/listener.go:53-109 | in every reachable state and for every head that confirms it, a deposit can be received (again), beyond the message that is held, exactly when a restart begins at or in front of its block and no deposit from there through it panics |
| Progress.ReceivableAnyNumberOfTimes | chains/evm/listener/listener.go:53-109 | under exactly the same condition it can be received any number of times |
| Progress.ReceivableUnlessStoredPast | store/blockstore.go:57-78 | where nothing panics: exactly when a restart begins at or in front of its block, whether the deposit was rejected, lost or not yet handled |
| Progress.HeldMessageSurvivesExactly | chains/evm/listener/listener.go:101-106 | a crash while PollEvents holds a message loses it for good exactly when the store is past its block |
| Progress.CompletableExactly | chains/evm/listener/listener.go:87-96 | for every head that confirms it, a block can be completed by some run exactly when no deposit from the first start through it panics |
| Progress.PassableExactly | chains/evm/listener/listener.go:87-108 | a block from the first start on can be passed by some run exactly when no deposit from there through it panics |
| Progress.PoisonStopsTheScan | chains/evm/listener/listener.go:87-108 | in no run, whatever crashes and restarts it has, is a block from such a deposit on completed or passed, or a deposit behind it received |
| Progress.PoisonExactly | chains/evm/listener/event-handler.go:30-51 | such deposits are the ERC721 ones whose declared lengths do not fit their memory, in every run in which their handler is found |
| Progress.OneDepositStopsTheScan | chains/evm/listener/event-handler.go:142-146 | a recipient length of 2^63 does this, whatever memory lies behind the calldata |
| HeadStart.ReceivableFromHead | store/blockstore.go:59-62 | with a start at the head, whenever the process is down and for any lower bound of the heads, a deposit can be received (again) exactly when its block is not below the bound and no deposit of its block through it panics |
| HeadStart.CompletableFromHead | store/blockstore.go:59-62 | a block can be completed exactly when it is not below the bound and holds no deposit that panics |
| Stores.BlockKeyInjective | store/blockstore.go:26-29 | domains share a block key only with themselves |
| Stores.NonceKeyInjective | store/noncestore.go:26-29 | chains share a nonce key exactly when their IDs agree in the low 64 bits |
| Stores.KeysDisjoint | store/noncestore.go:26-29 | no block key is a nonce key |
| Stores.KeysPrinted | store/blockstore.go:26-29 | the keys of domain 255 and of chains 42 and 2^64 - 1 as they are in a database |
| Stores.BlockStored | store/blockstore.go:26-55 | a stored block reads back and no other domain's block and no nonce changes |
| Stores.NonceStored | store/noncestore.go:26-55 | a stored nonce reads back for every chain with that key and nothing else changes |
| Stores.BlockStore.StoreBlock | store/blockstore.go:25-37 | stores the block's absolute value under its domain, or nothing when the write fails |
| Stores.BlockStore.GetLastStoredBlock | store/blockstore.go:39-55 | a fresh number equal to the stored block, zero when the key is missing, an error when the read fails |
| Stores.BlockStore.GetStartBlock | store/blockstore.go:57-78 | none at the head; the configured object on a fresh start or when nothing later is stored; else a fresh number for the stored block |
| Stores.NonceStore.StoreNonce | store/noncestore.go:25-37 | stores the nonce under its chain, nothing when the write fails, and panics on a nonce that was never set |
| Stores.NonceStore.GetNonce | store/noncestore.go:39-55 | a fresh number equal to the stored nonce, zero when there is none |
| NonceRuns.NextKeepsInv | chains/evm/calls/transactor/itx/minimalForwarder.go:48-101 | every step keeps all sends that were not lost strictly below the next nonce and strictly increasing |
| NonceRuns.ReusedOnlyIfLost | chains/evm/calls/transactor/itx/minimalForwarder.go:53-101 | with stores that may fail, a nonce is reused or undercut only after the process died between its send and the next successful store |
| NonceRuns.NoncesNeverDecrease | chains/evm/calls/transactor/itx/minimalForwarder.go:53-101 | with successful stores, sent nonces never decrease over crashes and restarts, repeat only when the process died before the store, and at most the last send is exposed |
| NonceRuns.CrashRepeatsNonce | chains/evm/calls/transactor/itx/itx.go:98-104 | from any stored and on-chain nonce, a crash after a send and before its store repeats the nonce |
| NonceRuns.FirstSendAfterRestart | chains/evm/calls/transactor/itx/minimalForwarder.go:70-91 | what a restarted process sends first is at least the stored and at least the contract's nonce, and is one of the two |
| NonceRuns.MinedCounts | chains/evm/calls/transactor/itx/minimalForwarder.go:78-88 | the contract's nonce never falls, and the next restart does not send below what was mined |
| NonceRuns.OneFailedStoreGoesBack | chains/evm/calls/transactor/itx/minimalForwarder.go:56-63 | after a send with a failed store, the next send and a crash, the following send uses what storage and contract hold again |
| NonceRuns.SmallerNonceAfterOneFailedStore | chains/evm/calls/transactor/itx/minimalForwarder.go:56-63 | so from a first nonce n a run with one failed store sends n, n + 1, n |
| NonceRuns.NeverDecreaseExactly | chains/evm/calls/transactor/itx/minimalForwarder.go:53-101 | runs with at most k failed stores never send a smaller nonce than before exactly when k is zero, or the first nonce is already the last one below 2^63 |
| NonceRuns.FreshNonceReusesExactly | chains/evm/calls/transactor/itx/minimalForwarder.go:70-91 | in every reachable state, what a restarted process sends first reuses or undercuts a sent nonce exactly when neither storage nor contract is past it, and then no successful store followed that send in its process |
| Forwarder.MinimalForwarder.UnlockNonce | chains/evm/calls/transactor/itx/minimalForwarder.go:53-63 | stores the nonce if the write succeeds and releases the lock either way; with no nonce set it panics and keeps the lock |
| Forwarder.MinimalForwarder.UnsafeNonce | chains/evm/calls/transactor/itx/minimalForwarder.go:65-95 | loads once, a nonce that is at least the stored and at least the contract's one and is one of them, and returns a fresh narrowed copy |
| Forwarder.MinimalForwarder.UnsafeIncreaseNonce | chains/evm/calls/transactor/itx/minimalForwarder.go:97-101 | adds one in place |
| Forwarder.Transact | chains/evm/calls/transactor/itx/itx.go:66-105 | the transaction's effect on memory, store and acknowledged sends is that of its steps in a run, and it panics exactly where the run's process dies |
| Forwarder.Critical | chains/evm/calls/transactor/itx/itx.go:76-104 | under the lock, the nonce used is the one in memory or the higher one of store and contract, and grows by one exactly when the send is acknowledged |
| Forwarder.TransactionRun | chains/evm/calls/transactor/itx/itx.go:73-104 | what the steps of an undisturbed transaction do to nonce, store and sends in every case |
| DepositData.ConstructErc20DepositData | chains/evm/calls/contracts/deposit/deposit.go:8-14 | amount word, length word, recipient |
| DepositData.ConstructErc721DepositData | chains/evm/calls/contracts/deposit/deposit.go:16-24 | token word, recipient with its length, metadata with its length |
| DepositData.ConstructGenericDepositData | chains/evm/calls/contracts/deposit/deposit.go:26-31 | metadata with its length |
| Bytes.PaddedIsLeftPad | chains/evm/calls/contracts/deposit/deposit.go:10-11 | the constructors' padding, which branches on the bit length, equals the message handlers' padding of minimal bytes |
| Bytes.LeftPadFromToNat | chains/evm/voter/message-handler.go:85 | reading bytes as a number and padding the number back to the same width is the identity |
| EventHandlers.Erc721Parsed | chains/evm/listener/event-handler.go:132-174 | for lengths that are not truncated, parsing succeeds exactly when they fit the memory, and yields the three pieces |
| EventHandlers.Erc721ParsedLengths | chains/evm/listener/event-handler.go:142-158 | whatever is parsed lies inside the slice's memory at the truncated lengths |
| EventHandlers.Erc721Outcome | chains/evm/listener/event-handler.go:133-158 | parsing is an error exactly below 64 bytes, and panics exactly when a truncated length does not fit the memory |
| EventHandlers.Erc20Message | chains/evm/listener/event-handler.go:68-106 | parsing succeeds exactly from 84 bytes on; the message has the deposit's source, destination, nonce, resource, hash and block, is a fungible transfer, and carries the response's or the calldata's amount and everything behind 64 bytes |
| EventHandlers.Erc721Message | chains/evm/listener/event-handler.go:132-174 | the same identity and the three pieces for a non-fungible transfer |
| EventHandlers.GenericMessage | chains/evm/listener/event-handler.go:108-130 | the same identity and everything behind 32 bytes for a generic transfer, exactly from 32 bytes on |
| EventHandlers.HandleEventExactly | chains/evm/listener/event-handler.go:30-51 | the parser of the kind found is used: success conditions and kind per handler, the deposit's identity for all |
| EventHandlers.HandleEventPanics | chains/evm/listener/event-handler.go:30-51 | handling an event panics exactly for such ERC721 calldata whose handler is found |
| DepositPipeline.Erc20EndToEnd | chains/evm/listener/event-handler.go:68-106 | construct, parse, adjust and re-encode gives the constructor's bytes for the scaled amount (deposited, or returned by the handler), in a proposal with the deposit's identity; the amount is one word exactly when it is below 2^256 |
| DepositPipeline.Erc20Reencoded | chains/evm/listener/event-handler.go:70-91 | the unadjusted proposal repeats the calldata exactly when its length word is right |
| DepositPipeline.Erc20AmountOutgrowsWord | relayer/messageprocessors/message_processors.go:52-58 | an amount below 2^256 and at least a tenth of that, scaled up at all, makes the proposal longer than the calldata |
| DepositPipeline.Erc20ShortRecipient | chains/evm/listener/event-handler.go:71-74 | a constructed deposit is rejected exactly when the recipient has fewer than 20 bytes |
| DepositPipeline.Erc721Prefix | chains/evm/listener/event-handler.go:139-158 | the proposal repeats the memory up to the declared end, which is a prefix of the calldata exactly when the lengths fit the calldata |
| DepositPipeline.Erc721Truncation | chains/evm/listener/event-handler.go:142-158 | the proposal repeats what was parsed exactly when both declared lengths are below 2^63 |
| DepositPipeline.Erc721LengthTruncated | chains/evm/listener/event-handler.go:142-158 | a declared length 2^64 too large parses like the right one, and the proposal declares the right one |
| DepositPipeline.Erc721SpareBytes | chains/evm/listener/event-handler.go:145-151 | in a decoded log with an empty response, calldata that ends right behind its recipient takes padding and the response's length word into the proposal |
| DepositPipeline.Erc721TakesResponse | chains/evm/listener/event-handler.go:145-151 | calldata that declares a recipient and ends in front of it yields a proposal whose recipient is the response |
| DepositPipeline.Erc721EndToEnd | chains/evm/voter/message-handler.go:92-117 | parsing and re-encoding a constructed ERC721 calldata is the identity |
| DepositPipeline.Erc721ConstructedParsed | chains/evm/listener/event-handler.go:132-174 | parsing a constructed ERC721 calldata recovers token, recipient and metadata |
| DepositPipeline.Erc721TokenIdRescaled | relayer/messageprocessors/message_processors.go:20-61 | the adjustment of an ERC721 message rescales its token ID, and nothing else, in the proposal, which repeats the calldata exactly between equal precisions or for token ID zero |
| DepositPipeline.Erc721Distinct | chains/evm/voter/message-handler.go:108-116 | well-formed ERC721 deposits have equal proposal data exactly when their calldata is equal |
| DepositPipeline.GenericReencoded | chains/evm/listener/event-handler.go:108-130 | the generic proposal repeats the calldata exactly when its length word is right |
| DepositPipeline.GenericEndToEnd | chains/evm/voter/message-handler.go:119-132 | parsing and re-encoding a constructed generic calldata is the identity |
| MessageHandlers.ERC20MessageHandler | chains/evm/voter/message-handler.go:72-90 | a payload of two byte slices becomes padded amount, length, recipient; any other payload is an error |
| MessageHandlers.ERC721MessageHandler | chains/evm/voter/message-handler.go:92-117 | a payload of three byte slices becomes token, recipient and metadata with their lengths; any other payload is an error |
| MessageHandlers.GenericMessageHandler | chains/evm/voter/message-handler.go:119-132 | a payload of one byte slice becomes metadata with its length; any other payload is an error |
| MessageHandlers.ProposalFields | chains/evm/voter/proposal/proposal.go:9-20 | proposals have the source, nonce, resource, hash and block of the message and the handler's and bridge's address |
| MessageHandlers.ProposalsExactly | chains/evm/voter/message-handler.go:72-132 | accepted are exactly payloads of two, three and one byte slices |
| MessageProcessors.AdjustAmount | relayer/messageprocessors/message_processors.go:39-59 | replaces the amount in place, and nothing else, by the minimal bytes of the scaled one: ten times it for one decimal more, a tenth for one less; leaves it alone between equal precisions; fails without changing anything |
| MessageProcessors.AdjustDecimalsForERC20Amount | relayer/messageprocessors/message_processors.go:20-61 | scales from the precision configured for the source to that of the destination; without either an error that changes nothing |
| MessageProcessors.AdjustDecimalsForIndividualERC20Amount | relayer/messageprocessors/message_processors.go:63-112 | scales from the precision configured for the resource on the source to that on the destination; without either an error that changes nothing |
| MessageProcessors.FindPrecisions | relayer/messageprocessors/message_processors.go:138-178 | the six look-ups in turn find both precisions, or fail; a missing client panics, the destination's only after the source's bridge has answered |
| MessageProcessors.PrecisionOnExactly | chains/evm/calls/contracts/erc20/erc20.go:40-52 | a precision is found through handler and token; token 0x00...01 has 18 decimals without being asked |
| MessageProcessors.OnChainExactly | relayer/messageprocessors/message_processors.go:138-178 | the source's precision comes from the source's chain and bridge, the destination's from the destination's; when a client is missed |
| MessageProcessors.AdjustDecimalsForERC20AmountAuto | relayer/messageprocessors/message_processors.go:114-200 | touches fungible transfers only, scales between the precisions found on chain, panics without a bridge configuration |
| Decimals.UpThenDown | relayer/messageprocessors/message_processors.go:44-58 | scaling up and back is the identity |
| Decimals.DownThenUp | relayer/messageprocessors/message_processors.go:44-58 | scaling down and back never gains, loses less than one coarse unit, and nothing exactly for whole units |
| Decimals.ScaleMonotone | relayer/messageprocessors/message_processors.go:44-58 | scaling is monotone |
| Decimals.ScaleKeeps | relayer/messageprocessors/message_processors.go:44-58 | scaling keeps an amount exactly between equal precisions or when it is zero |
| Decimals.OneDigit | relayer/messageprocessors/message_processors.go:44-58 | one decimal more multiplies by ten, one less divides by ten rounding down |
| Decimals.EighteenToSix | relayer/messageprocessors/message_processors.go:44-58 | 10^18 with 18 decimals are 10^6 with 6, and back |
| Decimals.ScaleThrough | relayer/messageprocessors/message_processors.go:44-58 | going through an intermediate precision never gains and is exact unless that is coarser than both ends |
| Voter.StopsOnce | chains/evm/voter/voter.go:150-180 | a sequence of polls determines where polling stops |
| Voter.DeclinesExactlyWhenFinalisedFirst | chains/evm/voter/voter.go:158-179 | without errors the voter declines exactly when one of the 41 polls meets status 3 or 4 and every poll before it saw the uint8 sum of votes reach the threshold |
| Voter.ObserveExactly | chains/evm/voter/voter.go:158-172 | what a poll amounts to, from status, threshold and the uint8 sum |
| Voter.WrapHidesVotes | chains/evm/voter/voter.go:172 | when the wrapped sum decides differently from the real one |
| Voter.EVMVoter.ShouldVoteForProposal | chains/evm/voter/voter.go:150-180 | polls until the first poll that is not merely satisfied, or number 40; declines exactly when its status is 3 or 4, fails exactly when a needed answer failed; deletes the pending count as the recursion unwinds |
| Voter.EVMVoter.RepetitiveSimulateVote | chains/evm/voter/voter.go:182-194 | simulates until the first success, at most six times, and fails only after six failures |
| Voter.EVMVoter.VoteProposal | chains/evm/voter/voter.go:103-144 | the exact sequence of remote calls, at most 41 polls and 6 simulations; a vote only after the not-yet-voted answer, a last status that is neither executed nor cancelled and a successful simulation; exactly when it succeeds |
| Voter.VoteIsLast | chains/evm/voter/voter.go:129-140 | at most one vote, nothing after it, and no poll after a simulation |
| Voter.CallsInTurn | chains/evm/voter/voter.go:103-140 | which remote call is made when |
| Voter.EVMVoter.CountTransaction | chains/evm/voter/voter.go:243-244 | increments the uint8 count of one proposal |
| Voter.EVMVoter.UncountTransaction | chains/evm/voter/voter.go:251 | decrements it, wrapping to 255 |
| PendingVotes.CounterCounts | chains/evm/voter/voter.go:243-252 | in every interleaving the count is, mod 256, the number in flight now minus that at the last deletion |
| PendingVotes.UndisturbedCounter | chains/evm/voter/voter.go:243-252 | without a deletion it is the number in flight mod 256, zero once all have finished |
| PendingVotes.LeftoverAfterDeletion | chains/evm/voter/voter.go:152 | what a deletion leaves behind once all have finished, and when that is zero |
| PendingVotes.OneDeletedInFlight | chains/evm/voter/voter.go:152 | one vote in flight at the deletion leaves 255 |
| PendingVotes.LeftoverHidesVotes | chains/evm/voter/voter.go:172 | with that left behind, one confirmed vote is below a threshold of one |
| Identifiers.IdAndNonce | chains/evm/calls/contracts/bridge/bridge.go:333-338 | appending the source byte to the nonce's minimal bytes yields 256 times the nonce's magnitude plus the source |
| Identifiers.IdIsNonceAndSource | chains/evm/calls/contracts/bridge/bridge.go:333-338 | fits 72 bits; equals nonce * 256 + source exactly up to nonce 2^63 |
| Identifiers.IdInjective | chains/evm/calls/contracts/bridge/bridge.go:333-338 | identifiers agree exactly for equal sources and equal or opposite nonces |
| Identifiers.OppositeNoncesCollide | chains/evm/calls/contracts/bridge/bridge.go:333-338 | every nonce above 2^63 shares its identifier with a smaller one |
| Identifiers.IdHashInputShared | chains/evm/voter/proposal/proposal.go:39-42 | proposals share the voter's key exactly when sources are equal and nonces agree mod 256 |
| Identifiers.SharedKeyIsLowBytesOfId | chains/evm/voter/proposal/proposal.go:39-42 | the voter's key collides exactly when the on-chain identifiers agree in their low two bytes |
| Identifiers.DataHashInputInjective | chains/evm/voter/proposal/proposal.go:34-37 | the data hash input determines resource and data |
| Identifiers.HashInputs | chains/evm/voter/proposal/proposal.go:34-42 | the data hash takes the 32 bytes of the resource and then the data, the ID hash the source and then the nonce's low byte |
| Relayer.ResolvesToLast | relayer/relayer.go:83-89 | a domain resolves exactly when configured, to the last chain registered for it |
| Relayer.Relayer.RegisterChains | relayer/relayer.go:40-45 | after the loop the registry holds, for every domain, the last chain configured for it |
| Relayer.Relayer.Route | relayer/relayer.go:58-81 | writes once, to the chain registered for the destination, what the processors, as they answer in this call, made of the message in order; nothing if the destination is unknown or one rejects; panics exactly when a processor does |
| Relayer.ProcessedIsAccepted | relayer/relayer.go:68-73 | what a call makes of a message is what the processors accepted, each one what its predecessor left |
| Relayer.TwoInTurn | relayer/relayer.go:68-73 | the second processor gets what the first accepted, and nothing else |
| RelayerRuns.MessagesAreConserved | chains/evm/chain.go:104-115 | in every interleaving what a listener sent is what the relayer received followed by at most one held message, and each received message has one routing goroutine |
| RelayerRuns.RegistryCompleteBeforeDispatch | relayer/relayer.go:39-56 | nothing is received before registration is complete, the registry never changes afterwards, a dropped message had no chain or the processor it had come to answers with an error, and the process ends only by a panic of a processor |
| RelayerRuns.WritesAreAccepted | relayer/relayer.go:58-81 | each write belongs to one received message, no message is written twice, and what is written came out of all processors, each of which accepted, in the answer of that call, what its predecessor left |
| RelayerRuns.WritesAreProcessed | relayer/relayer.go:68-77 | with processors that always answer alike, the write carries what they make of the message |
| Delivery.WrittenToDestination | relayer/relayer.go:59-81 | what became of a deposit is written, if at all, to the last chain registered for its destination, and still names it when the processors keep destinations |
| Delivery.AdjustingKeepsDestination | relayer/messageprocessors/message_processors.go:20-200 | the adjusting processors do |
| Delivery.AcceptedIsWritten | relayer/relayer.go:47-81 | from every reachable state a message sent next and accepted by all processors can be written, once, in its final form, to that chain |
| SubstrateScan.HandleAllExact | chains/substrate/listener/listener.go:113-121 | handling succeeds exactly when every event is handled, and keeps their order |
| SubstrateScan.ScannedInOrder | chains/substrate/listener/listener.go:51-104 | for any failures and any answers of the handlers the blocks gone through are consecutive, each once, and each contributes all its messages or none |
| SubstrateScan.StartsWhereTold | chains/substrate/listener/listener.go:48-68 | a launch given a block goes through exactly the blocks from it to the position |
| SubstrateScan.HandleEventsExact | chains/substrate/listener/listener.go:110-149 | a block's messages cannot be had exactly when a required metadata update fails or a handler rejects an event of a subscribed kind |
| SubstrateScan.LosesBlockExactly | chains/substrate/listener/listener.go:87-103 | an iteration through a block sends nothing of it exactly then, otherwise one message per subscribed event, fungible, non-fungible, then generic, each in order; it moves on either way |
| SubstrateScan.AllMessagesExact | chains/substrate/listener/listener.go:112-139 | the messages of a block are its subscribed events' answers, by kind and in order |
| SubstrateScan.InTurnUnique | chains/substrate/listener/listener.go:112-139 | which determines them |
| SubstrateScan.OnlyFinalised | chains/substrate/listener/listener.go:64-86 | over all runs no block beyond the finalised header of its iteration is gone through |
| SubstrateScan.OneBadEventLosesBlock | chains/substrate/listener/listener.go:87-103 | a block of two fungible events of which one is rejected loses both |
| SubstrateListener.SubstrateListener.ListenToEvents | chains/substrate/listener/listener.go:48-108 | the imperative loop computes the scan and leaves other domains and nonces alone |
| SubstrateListener.SubstrateListener.Iterate | chains/substrate/listener/listener.go:55-103 | the loop body is one step of the scan |
| SubstrateListener.SubstrateListener.HandleEvents | chains/substrate/listener/listener.go:110-149 | one message per event of the subscribed kinds, fungible, non-fungible, then generic, or an error |

## Left out

- NonceRuns.ReusedOnlyIfLost: assumes the nonce in memory stays below 2^63, because the returned copy is narrowed to int64.
- NonceRuns.NoncesNeverDecrease: speaks of sends the relay acknowledged; a send that was accepted remotely but reported as failed counts as not sent.
- CrashRecovery.NoGapAcrossCrashes: a log counts as handled once the event handler returned for it, and its message, if there is one, was handed to the channel; what happens to it there is in Handover, and a message whose routing goroutine dies with the process is not followed further.
- Progress.ReceivableExactly, Progress.CompletableExactly, Progress.PassableExactly, HeadStart.ReceivableFromHead: say that some run of answers exists, not that every run gets there; a deposit that panics is one that does so at every call.
- BlockScan.ScannedExactlyOnce: assumes that confirmed blocks keep their logs and that a range query returns the logs of its blocks in order; logs that cannot be unpacked are dropped before.
- RelayerRuns.WritesAreAccepted: follows one life of the process; its restart is in the runs of the listeners.
- SubstrateScan.ScannedInOrder: the handlers are registered from outside the repository; they return a message or an error and do not panic.
- Forwarder.Transact: packing, signing and gas are one answer; the relayed bytes are not modelled.
- HeadStart.ReceivableFromHead: starts from a process that is down; one that is running at a position in front of the deposit may still get there without a restart.
- DepositPipeline.Erc721TakesResponse: the buffer layout is that of the event encoding (calldata, padding, response), which go-ethereum's decoder reslices; that decoder is not part of this model.
- Registration of event, message and Substrate handlers and of single chains, taking the nonce lock, and the choice of a handler by resource ID: assignments and map look-ups; a failed choice is a failed answer.
- The loop of `trackProposalPendingVotes` that picks vote transactions out of all pending ones: filters only; the goroutines it starts are modelled.
- Data races on the pending-vote map: each access is one step.
- Negative configured start blocks, stop signals, metrics, the Substrate writer, gas prices, ABI packing, contract calls, keys, command line and configuration.
