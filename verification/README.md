# Verified model of the wallet tracker

The tracker watches blockchains for deposits to and withdrawals from registered wallets. Many workers
take block numbers off two queues, process each block once it is deep enough, publish the wallet
events found in it, and record progress in Redis as a bitmap of processed blocks plus one high-water
mark per network. This project is a Dafny model of that protocol and of the computations around it,
with proofs about every run and every input. `dafny verify dfyconfig.toml` checks all of it.

## What is modelled

**The block-progress protocol** (`Tracker*.dfy`) is a step machine. Each Redis command, height query,
publisher answer and queue operation is one step; a reply can be good, refused, or lost after the
command took effect; workers, the poller, initial catch-up, delayed requeues, notifications, window
expiry, the cached chain height, and restarts (clean or by crash) interleave freely. `Run` over an
arbitrary list of steps is therefore any interleaving, and the theorems quantify over that list. State
no step reads (`History`) records what happened: blocks ever marked, the calls of ProcessBlock with the
block each fetched and what became of each event, the largest height seen, and the start point `base`
that coverage counts from. A call can only go on with the events its block calls for (`Chains.Derives`:
the UTXO and Solana models below), and `TrackerAttempts` shows that the processors' own loops, run in
whatever interleaving, appear in the machine as exactly such calls. The proof is rely-guarantee:
`TrackerSafety` states what each process knows and what the others may do, `TrackerSteps` shows it step
by step, `TrackerTheorems` reads the promises off, `TrackerRecovery` shows that no reachable state
strands a block, `TrackerDelivery` how often a block can be taken up again, and `TrackerLimits` what does
not hold and exactly when. `TrackerEffects` and `TrackerMoves` say outright what the poller and catch-up do
to the mark and the queues: when the mark is clamped and to what, which heights are sent, and what each
failure leaves.

**Storage and scans** (`Progress.dfy`, `Scan.dfy`) are the same operations as ordinary methods: the
windowed bitmap refines a set of block numbers, `AdvanceHighWaterMark` run alone moves the mark by an
exact amount, and the batched catch-up loop enqueues what the plain polling loop would. The split form
in the step machine, left undisturbed, is shown to do what the whole method does.

**Addresses** (`Radix.dfy`, `Base58*.dfy`, `TronAddress.dfy`, `TronSpellings.dfy`): Base58 with its
big-number loops and in-place reversal, Base58Check, TRON normalisation, for an arbitrary digest function
of 32 bytes, and which strings are spellings of an account, written out character by character.

**Accounting** (`Events.dfy`, `Publishing.dfy`, `Sums.dfy`, `Utxo*.dfy`, `Solana*.dfy`): publish-or-fail
over whole blocks; which wallet a UTXO transaction spends from, what it withdraws, deposits and returns
as change; Solana native transfers, token deltas and token transfers, and when the two ways of deriving
token events give the same amounts. `UtxoExact` and `SolanaExact` give every event of a transaction field
by field, in terms of its inputs and outputs, transfers and balances alone (`Places.dfy`).

**Wallet lookups** (`WatchList.dfy`), **the EVM provider pool** (`ProviderPool.dfy`,
`ProviderExact.dfy`) and **the resumable EVM transaction loop** (`EvmBlock.dfy`, `EvmExact.dfy`).

Randomness, clocks and outside answers are parameters: `accepts(k)` is whether the publisher takes the
k-th event, `fails(n)` whether a lookup fails, `now` an instant, `Reply` what Redis did. Map iteration
and goroutine order is an arbitrary choice in the methods that model it.

## What the proofs found

These hold of the code as it is. Each has a lemma giving the exact condition and one giving an input or
a run in which it happens.

- The mark is not monotone, although `SetLastProcessedBlock` refuses to move it backwards
  (internal/storage/redis.go:109-112): its read and its write are separate commands, and a stale write
  can land in between (`MarkCanFall`). It falls exactly at a stale write, a clamp or a first-run install
  below it (`MarkFallsIff`, `MarkMonotoneIff`). Coverage survives this (`HighWaterMarkCovered`).
- When initial catch-up cannot read the mark it takes the failure for a first run and moves the mark to
  the current height, past blocks nobody processed (`SkippedBlock`); whatever others do meanwhile, this
  happens exactly when the read fails or finds 0 and the write goes through (`CatchUpSkipsIff`). Started
  on a mark, with no failed read and the mark never set to 0, nothing is ever skipped (`NothingSkipped`).
- EVM and TRON blocks are marked even when the publisher declined one of their events, or was never
  offered it (`DeclinedAndMarked`); a block is marked exactly when its processor does not fail blocks
  over their events or all of them were taken (`MarkedIffNoneFails`, `RefusalGivesUp`). That the UTXO and
  Solana loops fail the block is shown of the loops themselves (`UtxoCall`, `SolanaCall`). That the EVM
  loop does not is how `ProcessTransaction` and `RunTask` transcribe it: each ignores what the call inside
  it reports; `EvmCall` carries this to the mark, with the fates its own goroutines met.
- A transaction funded by several watched wallets publishes no withdrawal, and credits change as a
  deposit to every funding wallet but that of the first watched input (`SpenderCreditedIff`,
  `CoSpenderCredited`).
- Adding a wallet on a network whose Bloom filter was never seeded, or losing the reply of an add, can
  hide wallets from lookups (`AddWithoutFilterIff`, `UnseededAddHides`, `AddWithLostReplyIff`,
  `LostReplyHides`). Removals need no refresh of the filter, whatever internal/storage/bloom.go:13 says:
  a stale positive falls through to the hash.
- The Solana instruction path publishes nothing for a transfer between two watched owners, where the
  delta path would publish both sides (`PathsAgree`, `WatchedToWatchedUnseen`).
- The circuit of a half-open EVM provider never opens again: it stays half-open exactly until a request
  succeeds (`HalfOpenStays`, `HalfOpenUntilSuccess`). Where a closed circuit opens on the third failure in
  a row, a half-open one only sits out 30 seconds after each (`HalfOpenKeepsFailing`).

## Model

| member | source | states |
|---|---|---|
| `TrackerTheorems.HighWaterMarkCovered` | internal/storage/redis.go:101-198 | In every interleaving every block above the start point and up to the high-water mark has been marked processed, although stale writes can lower the mark and blocks finish out of order. |
| `TrackerTheorems.MarkedWasProcessed` | internal/blockchain/base/tracker.go:705-784 | Every marked block, wherever the mark stands, had a call of ProcessBlock that began when it was deep enough on the chain and dealt with each of its events; on UTXO and Solana chains these are exactly the events its fetched block calls for, and each was accepted. |
| `TrackerTheorems.EndToEnd` | internal/blockchain/base/tracker.go:749-768 | So had every block above the start point and up to the high-water mark, with the same restriction to UTXO and Solana chains. |
| `TrackerDelivery.RepeatNeedsExpiry` | internal/blockchain/base/tracker.go:657-768 | In every run a block is taken up again after a call that led to its mark only if its bit expired; without expiry only the last call on a block is behind its mark, and events are offered again only after calls given up or with a refused SETBIT. |
| `TrackerDelivery.StepSingle` | internal/blockchain/base/tracker.go:633-768 | Every step keeps this: a worker in a call is on the last call of its block. |
| `TrackerTheorems.RefusalGivesUp` | internal/blockchain/bitcoin/processor.go:345-396 | On UTXO and Solana chains a call with an event that was not taken is behind no mark and no worker is on it, in that state and however the run goes on. |
| `TrackerTheorems.RunExtends` | internal/blockchain/base/tracker.go:749-753 | Over any run calls are only added and answered: what one fetched and was answered stays. |
| `TrackerTheorems.PollingLosesNoBlock` | internal/blockchain/base/tracker.go:602-631 | A polling pass sent ascending heights above the mark it read and up to the tip it was told, on a chain longer than the depth none short of its confirmations; one that met no refusal sent every never-marked block between the start point and there, whatever was dropped before. |
| `TrackerTheorems.OneHolder` | internal/blockchain/base/tracker.go:633-655 | No two workers hold a block, and the in-flight set is exactly what the workers hold. |
| `TrackerTheorems.CompletedOnce` | internal/blockchain/base/tracker.go:657-771 | ProcessBlock never starts on a block whose bit is set; a block is marked again only after its bit expired; without expiry each block completes at most once and the counter is at most the number of marked blocks. |
| `TrackerTheorems.MarkStaysConfirmed` | internal/blockchain/base/tracker.go:711-747 | Every marked block was deep enough below the true tip when ProcessBlock began on it, cached heights included, and the mark is at most the start point or the largest observed height minus the confirmations. |
| `TrackerTheorems.PendingWritesConfirmed` | internal/storage/redis.go:194-197 | The same of every value a worker is about to write to the mark. |
| `TrackerTheorems.BaseRisesOnlyOnFirstRun` | internal/blockchain/base/tracker.go:534-542 | No step but the write of the first-run branch moves the start point, and that one moves it to the height it installs. |
| `TrackerTheorems.BaseHistory` | internal/blockchain/base/tracker.go:523-542 | Over any run the start point never falls, and moves only with an install. |
| `TrackerTheorems.StartPointInstalls` | internal/blockchain/base/tracker.go:470-476 | Installs number at most one, plus the failed reads of the mark by catch-up, plus the times the mark was set to 0; without one the start point is the mark first found. |
| `TrackerTheorems.NothingSkipped` | internal/blockchain/base/tracker.go:523-542 | Started on a nonzero mark, with no failed read by catch-up and the mark never set to 0, the start point is that mark and every block from there to the mark has been marked. |
| `TrackerTheorems.MarkFallsIff` | internal/storage/redis.go:101-124 | A step lowers the mark exactly when it is an effective write below it: a stale advance, a clamp or a first-run install. |
| `TrackerTheorems.MarkMonotoneIff` | internal/storage/redis.go:101-198 | Along a run the mark never falls exactly when no step is such a write. |
| `TrackerSteps.StepKeeps` | internal/blockchain/base/tracker.go:359-815 | Every step of every process keeps the whole invariant. |
| `TrackerSteps.RunKeeps` | internal/blockchain/base/tracker.go:359-815 | So does every run. |
| `TrackerSteps.AdvanceKeeps` | internal/storage/redis.go:165-198 | Each piece of the split AdvanceHighWaterMark keeps it, under any interference. |
| `TrackerSteps.WalkExtends` | internal/storage/redis.go:175-192 | The walk extends a covered range only by a block whose bit is set. |
| `TrackerSteps.SetBitKeeps` | internal/blockchain/base/tracker.go:755-759 | Marking keeps it whether SETBIT succeeds, fails, or succeeds with a lost reply. |
| `TrackerSteps.SeeTipKeeps` | internal/blockchain/base/tracker.go:710-747 | So does the confirmation check, whether it fails, requeues the block or lets it through. |
| `TrackerSteps.PublishKeeps` | internal/blockchain/base/tracker.go:749-753 | So does each answer of the publisher. |
| `TrackerSteps.ForceKeeps` | internal/storage/redis.go:120-124 | Forcing the mark to a covered value keeps coverage; when it is forced, and to what, is `PollClamps` and `CatchClamps`. |
| `TrackerSteps.CatchFirstKeeps` | internal/blockchain/base/tracker.go:534-542 | Installing a start point keeps coverage relative to the new one. |
| `TrackerSteps.RestartKeeps` | internal/blockchain/base/tracker.go:195-248 | A restart, clean or by crash, keeps the invariant. |
| `TrackerSteps.InitInv` | internal/blockchain/base/tracker.go:195-210 | A tracker first started on a Redis with some mark and no bits satisfies it. |
| `TrackerSafety.WorkerOkStable` | internal/blockchain/base/tracker.go:633-784 | What one worker knows survives any step of a process that does not hold its block. |
| `TrackerRecovery.ScanEnds` | internal/blockchain/base/tracker.go:615-630 | Left to itself a pass ends, at the last scannable height or at a full queue, with its first block in the queue if there was room. |
| `TrackerRecovery.ComesToRest` | internal/blockchain/base/tracker.go:633-702 | From every state of the invariant, without stopping the tracker, workers, poller and queue can come to rest with nothing in flight and the mark unmoved. |
| `TrackerRecovery.PublishAll` | internal/blockchain/base/tracker.go:749-753 | The publisher can take every remaining event of a call. |
| `TrackerRecovery.Recovery` | internal/blockchain/base/tracker.go:602-631 | From every reachable state, whatever the blocks hold, without stopping the tracker and with enqueues refused only at a full queue, some continuation brings the mark to any confirmed height without moving the start point, marks every block between them, and delivers all the events of every block it processes. |
| `TrackerRecovery.ProcessClean` | internal/blockchain/base/tracker.go:633-771 | A worker that picked a fresh, deep enough block, whatever it holds, can take it through to a set bit with all its events accepted. |
| `TrackerRecovery.AdvanceAlone` | internal/storage/redis.go:165-198 | Undisturbed, the split AdvanceHighWaterMark ends with the mark exactly where the whole one takes it. |
| `TrackerSteps.RunConcat` | internal/blockchain/base/tracker.go:359-373 | Runs compose. |
| `TrackerLimits.MarkCanFall` | internal/storage/redis.go:105-117 | A run of two workers from an initial state after which one write lowers the mark from 2 to 1. |
| `TrackerLimits.CatchUpSkipsIff` | internal/blockchain/base/tracker.go:470-542 | With any steps of others in between and any replies, catch-up puts the mark above a never-marked block exactly when its read of the mark fails or finds 0, the second read succeeds and finds nothing above the height it was told, the write takes effect, and such a block lies up to that height. |
| `TrackerLimits.ReadErrorSkipsBlocks` | internal/blockchain/base/tracker.go:534-542 | After a failed read every never-marked block between the old mark and the height ends up below the new mark and start point, unmarked. |
| `TrackerLimits.SkippedBlock` | internal/blockchain/base/tracker.go:473-476 | A run from mark 5 at height 20 in which one failed read leaves block 6 below the mark, never marked. |
| `TrackerLimits.MarkedIffNoneFails` | internal/blockchain/base/tracker.go:749-768 | For every block and every fate of its events, taken, declined or never offered, the block is marked exactly when its processor does not fail blocks over their events or all were taken. |
| `TrackerLimits.DeclinedAndMarked` | internal/blockchain/ethereum/processor.go:348-356 | A run in which an EVM event is declined and its block marked. |
| `TrackerEffects.PollClamps` | internal/blockchain/base/tracker.go:478-520 | In every interleaving a polling pass that reads a mark short of its confirmations on a chain longer than the depth forces it to the tip less the confirmations; on a shorter chain it forces a mark beyond the tip to the tip; any other mark it leaves alone; it scans from the value it forced, or from the old one if the write failed. |
| `TrackerEffects.PollNormalizes` | internal/blockchain/base/tracker.go:478-520 | Undisturbed, that is where the mark ends up. |
| `TrackerEffects.PollWithoutMark` | internal/blockchain/base/tracker.go:472-476 | A pass that cannot read the mark leaves it alone and scans from block 1. |
| `TrackerEffects.CatchClamps` | internal/blockchain/base/tracker.go:532-556 | The same of initial catch-up; afterwards a missing mark is a first run, one at most 10 blocks behind ends it, and any other starts the scan at the next block. |
| `TrackerEffects.CatchNormalizes` | internal/blockchain/base/tracker.go:478-532 | Undisturbed, the mark ends up where polling would have put it. |
| `TrackerEffects.CatchScanIsLoop` | internal/blockchain/base/tracker.go:569-587 | Left alone, catch-up in the step machine enqueues exactly what the loop does: only confirmed heights above the mark, and all of them if the queue has room. |
| `TrackerEffects.PollScanIsLoop` | internal/blockchain/base/tracker.go:615-630 | So does a polling pass, which records what it sent and whether it met a full queue. |
| `TrackerEffects.CatchupQueueConfirmed` | internal/blockchain/base/tracker.go:569-587 | In every interleaving each block on the catch-up queue was confirmed at some height that had been observed. |
| `TrackerEffects.TakesHead` | internal/blockchain/base/tracker.go:359-373 | An idle worker takes the head of its own queue and leaves the other queue alone. |
| `TrackerEffects.QueuesBounded` | internal/blockchain/base/tracker.go:375-407 | In every interleaving neither queue holds more than its capacity. |
| `TrackerEffects.RestartForgets` | internal/blockchain/base/tracker.go:195-248 | A restart empties queues, timers and in-flight set and keeps the mark, the bits and the cached height. |
| `TrackerEffects.WindowForgets` | internal/storage/redis.go:151-159 | The end of a window loses exactly the bits of its 100000 blocks. |
| `TrackerEffects.ShallowComesBack` | internal/blockchain/base/tracker.go:786-815 | Whatever the others do meanwhile, its timer puts it back on the realtime queue if there is room. |
| `TrackerEffects.CachedTipSeen` | internal/blockchain/bitcoin/processor.go:88-109 | A fetched height is what others are told from the cache once stored there, until it is evicted. |
| `TrackerEffects.MarkOutcomes` | internal/blockchain/base/tracker.go:755-768 | After SETBIT and EXPIRE the worker advances the mark only if both are known to have succeeded; otherwise it lets the block go uncounted, its bit set unless SETBIT was refused. |
| `TrackerEffects.AdvanceStops` | internal/blockchain/base/tracker.go:764-771 | A command of the advance that fails, or finds the mark further on, ends it: the mark stays unless a write got through whose reply was lost, and the block counts all the same. |
| `TrackerMoves.FirstRunInstalls` | internal/blockchain/base/tracker.go:534-542 | Whatever the others do between its read and its write, a first run installs the height it was told exactly when the read finds nothing higher and the write takes effect, and catch-up is then over. |
| `TrackerMoves.FailureLetsGo` | internal/blockchain/base/tracker.go:658-720 | A failed read of the bit, a missing height or block, or a call given up lets the block go, idles the worker and changes nothing else. |
| `TrackerAttempts.AnswersArrive` | internal/blockchain/base/tracker.go:749-753 | Answers reach a call one by one whatever steps other processes take in between. |
| `TrackerAttempts.CallEnds` | internal/blockchain/base/tracker.go:749-768 | In every interleaving a call takes its worker to the mark when it returns with everything answered, and back to idle with the block let go when it fails. |
| `TrackerAttempts.SentAppears` | internal/blockchain/base/tracker.go:749-753 | What a publish-or-fail loop sent is such a call: exactly a processed block reaches the mark, with all its events taken. |
| `TrackerAttempts.UtxoCall` | internal/blockchain/bitcoin/processor.go:243-406 | The UTXO ProcessBlock is such a call, with exactly the events of its block. |
| `TrackerAttempts.SolanaCall` | internal/blockchain/solana/processor.go:198-228 | So is the Solana one. |
| `TrackerAttempts.EvmCall` | internal/blockchain/ethereum/processor.go:256-371 | The EVM ProcessBlock is such a call, with the events its goroutines dealt with in their order and what became of each; finished, it has dealt with every event of every transaction not on record and reaches the mark, whatever became of them. |
| `TrackerAttempts.SomeInterleaving` | internal/blockchain/base/tracker.go:749-753 | There is such an interleaving for all answers: the worker alone. |
| `Progress.RunLength` | internal/storage/redis.go:175-192 | The number of consecutive marked blocks right above a height: all of them are marked, the next one is not. |
| `Progress.AdvanceTimesExact` | internal/storage/redis.go:165-198 | n undisturbed calls move the mark by the smaller of the run and n strides of 10001. |
| `Progress.CallsToFrontier` | internal/storage/redis.go:187-191 | The frontier is reached exactly from the run length over the stride, rounded up, calls on. |
| `Progress.BlockStorage.BitIsMember` | internal/storage/redis.go:138-144 | The bit at position b mod 100000 of window b div 100000 stands for block b and no other. |
| `Progress.BlockStorage.IsBlockProcessed` | internal/storage/redis.go:138-144 | Answers membership in the abstract set of processed blocks. |
| `Progress.BlockStorage.MarkBlockProcessed` | internal/storage/redis.go:146-162 | Adds exactly the block to its network's set when SETBIT succeeds, even if EXPIRE then fails; other networks are untouched. |
| `Progress.BlockStorage.ExpireWindow` | internal/storage/redis.go:151-159 | The end of a window's life removes exactly its blocks. |
| `Progress.BlockStorage.GetLastProcessedBlock` | internal/storage/redis.go:126-136 | A missing mark reads as 0. |
| `Progress.BlockStorage.SetLastProcessedBlock` | internal/storage/redis.go:101-118 | Undisturbed it never lowers the mark; it succeeds exactly when its commands do, the write being needed only for a value not below the mark. |
| `Progress.BlockStorage.ForceSetLastProcessedBlock` | internal/storage/redis.go:120-124 | Sets the mark whatever it was. |
| `Progress.BlockStorage.AdvanceHighWaterMark` | internal/storage/redis.go:165-198 | The loop computes the exact advance, or leaves the mark alone when a command fails; 10004 good commands always suffice. |
| `Scan.Ascending` | internal/blockchain/base/tracker.go:619-622 | Each height of a range once, in ascending order. |
| `Scan.PollingPass` | internal/blockchain/base/tracker.go:615-630 | The polling loop sends, in ascending order, only heights above the mark and up to the tip that on a chain longer than the depth have their confirmations, and every one of these unless an enqueue is refused. |
| `Scan.EnqueueBatch` | internal/blockchain/base/tracker.go:577-584 | One batch continues the scan to its end, or leaves it where the plain scan would stop. |
| `Scan.CatchupPass` | internal/blockchain/base/tracker.go:558-597 | For any batch size the batched loop sends what the plain scan would, so only such heights too and all of them unless refused or stopped; stopped early it has sent a prefix of that; it terminates. |
| `Scan.AcceptedRun` | internal/blockchain/base/tracker.go:375-407 | How many enqueues succeed before the first refusal. |
| `Scan.EnqueuedConfirmed` | internal/blockchain/base/tracker.go:569-587 | What a scan sends, in terms of the tip alone: ascending heights above the mark, none short of its confirmations on a chain longer than the depth, all of them unless refused. |
| `Radix.ValueOfShortest` | internal/blockchain/tron/address.go:121-125 | The shortest digit sequence of a number has that number as its value. |
| `Radix.ShortestOfValue` | internal/blockchain/tron/address.go:144-153 | A digit sequence without a leading zero is the shortest one of its value. |
| `Radix.RecodeInverse` | internal/blockchain/tron/address.go:115-162 | Changing base and back, carrying leading zeros over one by one, is the identity. |
| `Radix.ShortestLength` | internal/blockchain/tron/address.go:121-125 | A number between consecutive powers has that many digits, and its first digit brackets it. |
| `Base58.IndexInAlphabet` | internal/blockchain/tron/address.go:145-148 | Looking a character up gives its digit, or a negative number exactly off the alphabet. |
| `Base58.DecodeEncode` | internal/blockchain/tron/address.go:115-162 | Decoding an encoding gives the bytes back, for every byte sequence, leading and all zeros included. |
| `Base58.EncodeDecode` | internal/blockchain/tron/address.go:115-162 | Decoding succeeds exactly on strings over the alphabet, and encoding the result gives the string back. |
| `Base58.AppendDigits` | internal/blockchain/tron/address.go:121-125 | The division loop yields the letters of the number, last first. |
| `Base58.AppendZeros` | internal/blockchain/tron/address.go:127-132 | One letter for each leading zero byte. |
| `Base58.ReverseInPlace` | internal/blockchain/tron/address.go:134-136 | The swap loop reverses the buffer. |
| `Base58.Base58Encode` | internal/blockchain/tron/address.go:115-138 | The loops together compute the encoding whose inverse is proved above. |
| `Base58.DecodeNumber` | internal/blockchain/tron/address.go:144-151 | The multiply-and-add loop yields the value of the digits, and fails exactly off the alphabet. |
| `Base58.CountOnes` | internal/blockchain/tron/address.go:154-157 | The number of leading ones. |
| `Base58.Base58Decode` | internal/blockchain/tron/address.go:140-162 | The loops together compute the decoding. |
| `Base58.DecodeBase58` | internal/blockchain/solana/processor.go:821-846 | Solana's differently written decoder computes the same decoding. |
| `Base58.PrependZeros` | internal/blockchain/solana/processor.go:838-844 | One zero byte in front per leading one. |
| `Base58Exact.AlphabetIs` | internal/blockchain/tron/address.go:13-13 | The alphabet is the 58 digits and letters other than 0, I, O and l, in the order of their codes. |
| `Base58Exact.RecodeIff` | internal/blockchain/tron/address.go:115-162 | A change of base is the one digit sequence with the same value and the same zeros in front. |
| `Base58Exact.ValueIsPlaces` | internal/blockchain/tron/address.go:144-151 | The value of digits is the sum of each times the power of the base for its place. |
| `Base58Exact.DecodeIff` | internal/blockchain/tron/address.go:115-162 | Decoding gives exactly the bytes that a string stands for, and encoding exactly the string that stands for them: letters of the alphabet, the same number in base 58 as the bytes are in base 256, and a leading one for each leading zero byte. |
| `TronAddress.HexRoundTrip` | internal/blockchain/tron/address.go:65-73 | Hexadecimal decoding inverts encoding. |
| `TronAddress.HexDecodes` | internal/blockchain/tron/address.go:33-43 | Every even-length lower-case hexadecimal string is the encoding of what it decodes to. |
| `TronAddress.CheckRoundTrip` | internal/blockchain/tron/address.go:84-107 | Base58Check decoding inverts encoding for every non-empty payload; which four bytes are the checksum is `CheckEncodeIs`. |
| `TronAddress.CheckDecodeUnique` | internal/blockchain/tron/address.go:89-107 | Only the encoding of a payload decodes to it. |
| `TronAddress.CheckEncodeIs` | internal/blockchain/tron/address.go:84-113 | The Base58Check string stands for the payload followed by the first four bytes of the digest of its digest. |
| `TronAddress.CheckDecodeIff` | internal/blockchain/tron/address.go:89-113 | A string decodes to a payload exactly when that is non-empty and the string stands for it followed by those four bytes. |
| `TronAddress.AccountString` | internal/blockchain/tron/address.go:84-87 | The Base58Check string of every account has 34 letters of the alphabet and starts with T, whatever the checksum. |
| `TronAddress.SpellingsDisjoint` | internal/blockchain/tron/address.go:33-46 | No string is both a hexadecimal and a Base58 spelling. |
| `TronAddress.NormalizeSpelling` | internal/blockchain/tron/address.go:15-74 | Every spelling of an account normalises to that account's Base58Check string. |
| `TronAddress.NormalizeOnlySpellings` | internal/blockchain/tron/address.go:27-54 | Only spellings of an account are accepted. |
| `TronAddress.NormalForm` | internal/blockchain/tron/address.go:15-21 | Every accepted result has length 34, starts with T and normalises to itself. |
| `TronAddress.SameFormSameAccount` | internal/blockchain/tron/address.go:15-21 | Two accepted addresses normalise equally exactly when they spell the same account. |
| `TronAddress.EveryAccountSpelled` | internal/blockchain/tron/address.go:27-82 | Every account has hexadecimal spellings of 20 and of 21 bytes, a Base58 spelling and a topic. |
| `TronAddress.HexReadsOnlySpellings` | internal/blockchain/tron/address.go:56-74 | The native-transfer conversion accepts only hexadecimal spellings, and gives their account. |
| `TronAddress.TopicReads` | internal/blockchain/tron/address.go:76-82 | A log topic gives the Base58Check string of the account in its last 40 digits. |
| `TronAddress.KeysAgree` | internal/blockchain/tron/processor.go:198-215 | Native transfers and log topics compute the key under which any spelling of the account is stored. |
| `TronAddress.WatchedUnderAnySpelling` | internal/blockchain/tracker.go:206-248 | A wallet added under any spelling is found by topics of its account and of no other, and removal under any other spelling undoes the add. |
| `TronSpellings.TrimSpaceIs` | internal/blockchain/tron/address.go:28-28 | Trimming takes off the spaces at both ends and nothing else. |
| `TronSpellings.EncodeWrites` | internal/blockchain/tron/address.go:53-65 | Digits of either case stand for bytes, two each and the high one first, exactly when in lower case they are what the bytes are encoded as. |
| `TronSpellings.HexSpellingIff` | internal/blockchain/tron/address.go:27-44 | The hexadecimal spellings of an account are its 21 bytes, or the 20 after the prefix, in digits of either case, perhaps after 0x or 0X, with any space around that, and nothing else. |
| `TronSpellings.Base58SpellingIff` | internal/blockchain/tron/address.go:46-53 | Its Base58 spellings are the Base58Check string with any space around it. |
| `TronSpellings.TopicIff` | internal/blockchain/tron/address.go:76-82 | Its topics end in the digits of its 20 bytes, after any other digits. |
| `TronSpellings.TopicReadsOnlyTopics` | internal/blockchain/tron/address.go:76-82 | Only topics of an account are read as one, and as that account. |
| `Publishing.Continue` | internal/blockchain/bitcoin/processor.go:263-397 | Publish-or-fail composes: parts published in order make the whole published in order, and the first failure ends it. |
| `Utxo.ScanFindsSpenders` | internal/blockchain/bitcoin/processor.go:268-302 | The input scan finds no funding wallet, the one, or that there are several, exactly as the set of funding wallets says. |
| `Utxo.OutputsSplit` | internal/blockchain/bitcoin/processor.go:304-397 | Every output is external, a deposit, change or addressless: the four sums make up the total. |
| `Utxo.SpendConserves` | internal/blockchain/bitcoin/processor.go:263-397 | With one funding wallet: withdrawal, deposits to others, change and addressless outputs add up to the outputs; at most one withdrawal, first and of that wallet; no deposit to it. |
| `Utxo.ReceiveConserves` | internal/blockchain/bitcoin/processor.go:358-397 | With no funding wallet nothing is withdrawn and every watched output is credited. |
| `Utxo.MultiSpendPublishesNoWithdrawal` | internal/blockchain/bitcoin/processor.go:298-356 | With several funding wallets no withdrawal is published. |
| `Utxo.ScanFindsFirst` | internal/blockchain/bitcoin/processor.go:292-296 | The wallet the scan settles on is that of the first watched input. |
| `Utxo.SpenderCreditedIff` | internal/blockchain/bitcoin/processor.go:370-374 | A funding wallet is credited exactly when one other than that of the first watched input gets an output. |
| `Utxo.CoSpenderCredited` | internal/blockchain/bitcoin/processor.go:298-397 | Such a transaction: the second funding wallet is credited its change, and nothing is withdrawn. |
| `UtxoExact.ScanSettles` | internal/blockchain/bitcoin/processor.go:286-297 | The scan settles on the address and wallet of the first watched input, and on none exactly when no input is watched. |
| `UtxoExact.ScanFrom` | internal/blockchain/bitcoin/processor.go:275-280 | The sender named is the first input address that is not empty. |
| `UtxoExact.ScanReports` | internal/blockchain/bitcoin/processor.go:275-301 | The inputs reported are those with an address, up to and including the first of a second watched wallet. |
| `UtxoExact.WithdrawalIs` | internal/blockchain/bitcoin/processor.go:304-350 | There is a withdrawal exactly when one watched wallet alone funds the transaction and pays something to an unwatched address; then one, with the transaction id, the first watched input's address and wallet, the unwatched outputs in order as legs, their positive sum, and the first named of them as receiver. |
| `UtxoExact.DepositPlaces` | internal/blockchain/bitcoin/processor.go:358-397 | One deposit for every output address of a watched wallet other than that of the first watched input, in order, each with transaction id, wallet, address, sender, inputs and value. |
| `UtxoExact.TxEventsAre` | internal/blockchain/bitcoin/processor.go:263-397 | A transaction calls for exactly that withdrawal and then those deposits. |
| `UtxoExact.BlockEventsConcat` | internal/blockchain/bitcoin/processor.go:263-263 | A block calls for the events of its transactions one after the other. |
| `UtxoBlock.ScanTxInputs` | internal/blockchain/bitcoin/processor.go:268-302 | The input loop, stopping early at a second wallet, computes the scan of all inputs. |
| `UtxoBlock.ExternalOutputs` | internal/blockchain/bitcoin/processor.go:305-328 | The output loop collects the external outputs, their sum and the first named address. |
| `UtxoBlock.PublishWithdrawal` | internal/blockchain/bitcoin/processor.go:304-350 | Publishes the transaction's withdrawal if there is one, the event that `WithdrawalIs` spells out, and says whether it was taken. |
| `UtxoBlock.PublishDeposits` | internal/blockchain/bitcoin/processor.go:358-397 | Publishes the deposits in output order up to the first failure. |
| `UtxoBlock.ProcessTransaction` | internal/blockchain/bitcoin/processor.go:263-397 | Publishes the transaction's events in order up to the first failure. |
| `UtxoBlock.ProcessBlock` | internal/blockchain/bitcoin/processor.go:243-406 | Succeeds only when every event of the block was accepted in order; otherwise exactly a prefix went out and a lookup failed or the publisher refused. |
| `SolanaDeltas.ColonFreeUnambiguous` | internal/blockchain/solana/processor.go:682-682 | Mints without a colon make owner-mint keys unambiguous. |
| `SolanaDeltas.KeysIdentify` | internal/blockchain/solana/processor.go:682-682 | Keys identify owner and mint exactly when no configured mint ends with a colon and another configured mint. |
| `SolanaDeltas.AggregateTokenBalances` | internal/blockchain/solana/processor.go:669-695 | The loop computes the aggregation that AggregateExact and AggregateConserves are about. |
| `SolanaDeltas.AggregateExact` | internal/blockchain/solana/processor.go:669-695 | Each owner-mint pair listed has one entry, with exactly the sum of its listed amounts. |
| `SolanaDeltas.FillMissing` | internal/blockchain/solana/processor.go:648-656 | In any iteration order, owners gone from the post balances get a zero entry. |
| `SolanaDeltas.SubtractPre` | internal/blockchain/solana/processor.go:658-665 | In any iteration order, each entry loses its pre amount once. |
| `SolanaDeltas.TokenDeltas` | internal/blockchain/solana/processor.go:644-667 | Post minus pre under every key of either side. |
| `SolanaDeltas.DeltaExact` | internal/blockchain/solana/processor.go:644-695 | Each delta is what the owner holds after minus what it held before, and owners listed on neither side have none. |
| `SolanaDeltas.DeltasConserve` | internal/blockchain/solana/processor.go:644-667 | Per mint the deltas add up to total post minus total pre. |
| `SolanaDeltas.OppositeTokenOwner` | internal/blockchain/solana/processor.go:722-732 | In any order, finds an entry of the same mint and the other sign, or there is none. |
| `SolanaDeltas.CounterpartyExists` | internal/blockchain/solana/processor.go:722-732 | With equal totals every nonzero delta has such an entry, of a different, named owner. |
| `SolanaTransfers.TokenAccountMetadata` | internal/blockchain/solana/processor.go:697-720 | The two loops compute the metadata of pre entries followed by post entries. |
| `SolanaTransfers.ProcessTokenInstructionTransfers` | internal/blockchain/solana/processor.go:324-405 | Publishes the transfers' events in order up to the first refusal or failed lookup. |
| `SolanaTransfers.PublishMove` | internal/blockchain/solana/processor.go:263-311 | Both sides are looked up, then a deposit or withdrawal is published when exactly one is watched. |
| `SolanaTransfers.PublishTransfer` | internal/blockchain/solana/processor.go:327-402 | A transfer with an unknown amount, mint or owner is skipped, any other publishes its event. |
| `SolanaTransfers.PublishDelta` | internal/blockchain/solana/processor.go:409-467 | One delta calls for one event of its owner, or none if zero or unwatched, and the call ends at the first failure. |
| `SolanaTransfers.ListingCompletes` | internal/blockchain/solana/processor.go:407-469 | Whatever part of the deltas was dealt with, in any order, is the start of a complete list. |
| `SolanaTransfers.PublishDeltas` | internal/blockchain/solana/processor.go:409-467 | In any order, one event for every nonzero delta of a watched owner, with a counterparty of it, up to the first refusal or failed lookup. |
| `SolanaTransfers.ProcessTokenDeltas` | internal/blockchain/solana/processor.go:407-469 | The same of the deltas of the transaction. |
| `SolanaTransfers.ListingSettles` | internal/blockchain/solana/processor.go:407-469 | Such a list settles every delta: the net amount of a watched owner is its delta, of others 0. |
| `SolanaTransfers.SettledNet` | internal/blockchain/solana/processor.go:407-469 | That net amount is the owner's holding after minus before. |
| `SolanaAgreement.MetaStable` | internal/blockchain/solana/processor.go:697-720 | When accounts keep owner and mint, the metadata says of each account what its entries say. |
| `SolanaAgreement.HeldByAccount` | internal/blockchain/solana/processor.go:669-695 | An owner's holding of a mint is the sum over its accounts. |
| `SolanaAgreement.FlowByAccount` | internal/blockchain/solana/processor.go:324-350 | What transfers bring an owner's accounts is what they bring the owner. |
| `SolanaAgreement.MovedIsPublishedOrInternal` | internal/blockchain/solana/processor.go:351-402 | What transfers bring a watched owner is what the instruction path publishes plus what came from or went to other watched owners. |
| `SolanaAgreement.DeltaIsPublishedPlusInternal` | internal/blockchain/solana/processor.go:324-469 | The delta of a watched owner is that same sum. |
| `SolanaAgreement.PathsAgree` | internal/blockchain/solana/processor.go:324-469 | The two paths publish the same net amount for a watched owner exactly when transfers between watched owners cancel out for it, in particular when there are none. |
| `SolanaAgreement.WatchedToWatchedUnseen` | internal/blockchain/solana/processor.go:360-383 | A transfer between two watched owners with a delta of 5 and no event on the instruction path. |
| `SolanaAgreement.TokensSettle` | internal/blockchain/solana/processor.go:316-322 | Whichever path is taken, the net amount of a watched owner is the change of its holding. |
| `SolanaBlock.ProcessNativeDeltas` | internal/blockchain/solana/processor.go:252-314 | Publishes the native transfers in order up to the first failure, the events that `NativeEventsAre` and `NativeNet` are about. |
| `SolanaBlock.ProcessTokenTransfers` | internal/blockchain/solana/processor.go:316-322 | Publishes the transfers if there are any, the deltas otherwise. |
| `SolanaBlock.ProcessTransaction` | internal/blockchain/solana/processor.go:237-250 | Native events, then token events; nothing without a signature. |
| `SolanaBlock.BlockCompletes` | internal/blockchain/solana/processor.go:198-228 | Whatever the first transactions of a block call for is the start of what the block calls for. |
| `SolanaBlock.ProcessBlock` | internal/blockchain/solana/processor.go:198-228 | Succeeds only when every event of the block was accepted in order, a skipped slot having none; otherwise exactly a prefix went out and a lookup failed or the publisher refused. |
| `SolanaExact.NativeEventsAre` | internal/blockchain/solana/processor.go:252-314 | The native path calls for one event for each transfer of a positive amount between a watched and an unwatched address, in order: a deposit of the watched receiver or a withdrawal of the watched sender, naming the other side. |
| `SolanaExact.NativeNet` | internal/blockchain/solana/processor.go:252-314 | The net amount published for a watched address is what it received from unwatched addresses less what it sent to them; for any other it is 0. |
| `SolanaExact.MetaIsLast` | internal/blockchain/solana/processor.go:697-720 | The metadata of an account is the last non-empty owner and mint listed for it. |
| `SolanaExact.KnownIffReads` | internal/blockchain/solana/processor.go:327-348 | Exactly the transfers with an amount, a configured mint and two listed owners are published; the mint is the one named, or that of the source account, or else of the destination. |
| `SolanaExact.InstructionEventsAre` | internal/blockchain/solana/processor.go:324-405 | The instruction path calls for one event for each such transfer between a watched and an unwatched owner, in order. |
| `SolanaExact.DeltaEventsAre` | internal/blockchain/solana/processor.go:407-469 | The delta path calls for one event for each holding of a watched owner that changed: a deposit of what it gained or a withdrawal of what it lost, naming an owner whose holding changed the other way, or none if there is none. |
| `SolanaExact.TxDerivesIff` | internal/blockchain/solana/processor.go:215-250 | A transaction that did not fail and has a signature calls for exactly its native events and then its token events; any other for nothing. |
| `SolanaExact.BlockDerivesConcat` | internal/blockchain/solana/processor.go:215-222 | What a block calls for can be cut between any two transactions. |
| `SolanaExact.BlockNativeNet` | internal/blockchain/solana/processor.go:198-314 | Over a block the net native amount published for a watched owner is what counted transactions brought it from unwatched addresses less what they took there. |
| `SolanaExact.BlockTokenNet` | internal/blockchain/solana/processor.go:198-469 | And of a mint it is the change of its holding, where each transaction settles that. |
| `WatchList.AgreesIff` | internal/storage/redis.go:77-93 | Lookups agree with the hash exactly when the network has no filter or its filter holds every watched address. |
| `WatchList.RefreshFilters` | internal/storage/bloom.go:47-70 | A refresh makes the filter hold every watched address. |
| `WatchList.SeededStaysExact` | internal/storage/redis.go:62-93 | Once seeded, lookups answer what the hash alone would after any sequence of adds, removals and refreshes without a lost add reply. |
| `WatchList.AddWithoutFilterIff` | internal/storage/bloom.go:77-85 | After an add on a network without a filter lookups stay exact exactly when the new address's bits cover those of every wallet there before. |
| `WatchList.UnseededAddHides` | internal/storage/bloom.go:77-85 | A trace in which an unseeded add hides the wallet watched before. |
| `WatchList.AddWithLostReplyIff` | internal/storage/redis.go:64-69 | After an add whose reply was lost they stay exact exactly when the filter held the address already. |
| `WatchList.LostReplyHides` | internal/storage/redis.go:64-69 | A trace in which such an add is not found. |
| `WatchList.AddExact` | internal/storage/redis.go:62-65 | An add that took effect is found under its address with its wallet; nothing else changes. |
| `WatchList.RemoveExact` | internal/storage/redis.go:72-75 | A removal that took effect is no longer found; nothing else changes, the filters included. |
| `WatchList.RefreshExact` | internal/storage/bloom.go:47-70 | A refresh makes the filter for the number of watched addresses, at least 1000, and sets their bits and no others. |
| `WatchList.ExactIsLastWritten` | internal/storage/redis.go:62-75 | After any operations the hash answers what the last one on the address that took effect left. |
| `WatchList.LookupIsLastWritten` | internal/storage/redis.go:62-93 | So does a lookup through a seeded filter when no add's reply was lost. |
| `WatchList.WalletStorage.RefreshFilter` | internal/storage/bloom.go:47-70 | The loop over the hash, in any order, builds the filter of its addresses. |
| `WatchList.WalletStorage.SeedAll` | internal/storage/bloom.go:33-44 | Succeeds exactly when no read fails, and then every given network is filtered. |
| `WatchList.WalletStorage.AddWatchedWallet` | internal/storage/redis.go:62-70 | Updates hash and filter as the model of an add says, for good, refused and lost replies. |
| `WatchList.WalletStorage.RemoveWatchedWallet` | internal/storage/redis.go:72-75 | Does what the model of a removal says, which `RemoveExact` is about, and reports whether the reply was good. |
| `WatchList.WalletStorage.IsWatchedWallet` | internal/storage/redis.go:77-93 | Answers the filtered lookup, and fails exactly when Redis is asked and fails. |
| `ProviderPool.BreakerInvariant` | internal/blockchain/ethereum/client.go:185-213 | In every history the counter is the failures since the last success, a closed circuit has fewer than three, and only an open one is being probed. |
| `ProviderPool.BreakerTransitions` | internal/blockchain/ethereum/client.go:185-252 | A circuit opens only on its third failure in a row, leaves open only by a successful probe, is probed only a minute after its last failure, and closes only on a successful request when half-open. |
| `ProviderPool.HalfOpenStays` | internal/blockchain/ethereum/client.go:198-212 | A half-open circuit never opens again: it stays half-open, its counter growing, through any failures. |
| `ProviderPool.HalfOpenUntilSuccess` | internal/blockchain/ethereum/client.go:198-212 | It stays half-open exactly until a request succeeds, and closes there. |
| `ProviderPool.HalfOpenKeepsFailing` | internal/blockchain/ethereum/client.go:118-125 | A history that opens, recovers and fails three times more: half-open with three failures in a row, out of rotation for 30 seconds, then back. |
| `ProviderPool.FirstInTurn` | internal/blockchain/ethereum/client.go:118-132 | The first healthy provider from the current position on, cyclically, is the one whose turn it is. |
| `ProviderPool.SelectionRotates` | internal/blockchain/ethereum/client.go:118-132 | A selection moves the provider it returns to the end of the turn. |
| `ProviderPool.PicksFollowTurn` | internal/blockchain/ethereum/client.go:114-135 | Consecutive selections follow the turn. |
| `ProviderPool.RoundRobinFair` | internal/blockchain/ethereum/client.go:114-135 | With a fixed set of m healthy providers any m consecutive selections return each exactly once. |
| `ProviderPool.OpenUntouched` | internal/blockchain/ethereum/client.go:138-183 | A retried operation never uses or changes a provider whose circuit is open. |
| `ProviderExact.LastFailureIs` | internal/blockchain/ethereum/client.go:194-197 | The instant of last failure is that of the last failed request or probe. |
| `ProviderExact.BreakerExact` | internal/blockchain/ethereum/client.go:185-251 | The circuit after one more happening, in every state: it opens on the third failure in a row when closed, is half-open after a successful probe when open, closes on a successful request when half-open, and changes in no other way. |
| `ProviderExact.ProbesIff` | internal/blockchain/ethereum/client.go:231-236 | A probe starts exactly when an open circuit is checked more than 60 seconds after the last failure. |
| `ProviderExact.HealthyIff` | internal/blockchain/ethereum/client.go:123-126 | A provider is in rotation exactly when closed, or half-open and its last failure more than 30 seconds ago. |
| `ProviderExact.HealthyBelowThree` | internal/blockchain/ethereum/client.go:118-126 | One that never failed three times in a row never leaves rotation. |
| `ProviderExact.RetriedHistory` | internal/blockchain/ethereum/client.go:144-180 | After a retried operation each provider's breaker is what its history makes it with the requests on it added, an unsupported transaction type being none. |
| `ProviderPool.EthereumClient.GetHealthyProvider` | internal/blockchain/ethereum/client.go:114-135 | The loop returns the provider whose turn it is and moves past it, or none exactly when none is healthy. |
| `ProviderPool.EthereumClient.UpdateProviderStatus` | internal/blockchain/ethereum/client.go:185-213 | Updates that provider's breaker only, and keeps every closed one below three failures. |
| `ProviderPool.EthereumClient.PerformHealthCheck` | internal/blockchain/ethereum/client.go:224-252 | Probes exactly the providers open for more than a minute. |
| `ProviderPool.EthereumClient.ExecuteWithRetry` | internal/blockchain/ethereum/client.go:138-183 | Each attempt uses a provider healthy at that moment, breakers end as the attempts' outcomes say, success ends the loop, and it fails only when attempts, healthy providers or the context ran out. |
| `EvmBlock.EthereumProcessor.ProcessTransaction` | internal/blockchain/ethereum/processor.go:373-420 | Without relevance or receipt an error and nothing offered; otherwise every event is offered whatever became of those before. |
| `EvmBlock.EthereumProcessor.RunTask` | internal/blockchain/ethereum/processor.go:339-356 | A transaction with a slot is handed on and recorded whatever processTransaction returns. |
| `EvmBlock.FatesIgnored` | internal/blockchain/ethereum/processor.go:348-356 | Result and record of an attempt depend on slots and progress writes alone. |
| `EvmBlock.FinishedReachesAll` | internal/blockchain/ethereum/processor.go:305-316 | An attempt that finishes the block hands on every position not on record. |
| `EvmBlock.AttemptAccounted` | internal/blockchain/ethereum/processor.go:288-325 | One attempt hands on only what is not on record, and all of the rest when it finishes. |
| `EvmBlock.AttemptsAccounted` | internal/blockchain/ethereum/processor.go:288-371 | Over any sequence of attempts a transaction is handed on at most once plus once per lost progress write, and at least once when an attempt finishes. |
| `EvmBlock.HandedExactlyOnce` | internal/blockchain/ethereum/processor.go:288-371 | With every progress write successful: at most once, and exactly once when the block is finished. |
| `EvmBlock.OneMoreTask` | internal/blockchain/ethereum/processor.go:332-357 | Concurrent work on a batch commutes: its effect does not depend on the order. |
| `EvmExact.FinishesIff` | internal/blockchain/ethereum/processor.go:303-313 | An attempt finishes the block exactly when every transaction not on record got a slot. |
| `EvmExact.ReachedIff` | internal/blockchain/ethereum/processor.go:303-335 | It reaches exactly the positions not on record with no slot missed in an earlier batch. |
| `EvmExact.AttemptIs` | internal/blockchain/ethereum/processor.go:303-313 | It does the work of exactly the positions it reaches. |
| `EvmExact.AttemptExact` | internal/blockchain/ethereum/processor.go:288-371 | A transaction is handed on once for each of its positions that is reached and gets a slot, goes on record when one of their writes succeeds, and counts a lost write for each that fails. |
| `EvmBlock.EthereumProcessor.ProcessBatch` | internal/blockchain/ethereum/processor.go:328-371 | Runs a goroutine for each position not on record, in any order, repeated hashes included, with the events of each dealt with in that order, and fails exactly when one got no slot. |
| `EvmBlock.EthereumProcessor.ProcessBlock` | internal/blockchain/ethereum/processor.go:288-325 | The batch loop is one attempt, each position it reaches run once; progress is cleared only after the last batch. |

## Left out

- HTTP, JSON-RPC, WebSocket, RabbitMQ and Redis transport, and JSON decoding: answers are inputs, chosen freely.
- Wall-clock delays, tickers, rate limiters and backoff; only the provider pool has an (abstract) clock.
- A `Stop` overlapping a `Start`: a restart is one step, after which no earlier worker is left.
- 64-bit wrap-around of block heights and negative configuration values; heights are natural numbers.
- A stored mark that does not parse as a number: reads of it count as failed reads.
- Bits already in Redis before the tracker was first started: history begins with that start.
- Exactly-once delivery, which the code does not give: a block given up after some events were accepted publishes them again on its next attempt (`RepeatNeedsExpiry` says when there can be one).
- Floating-point coin amounts and their formatting; amounts are integers in base units.
- SHA-256, Keccak, ABI decoding, signer recovery and decimal formatting; the digest is an arbitrary function.
- Lower-casing of characters outside ASCII: none of those becomes a hexadecimal digit or an x.
- Parsing of raw Solana instructions: native and token transfers are given.
- How EVM and TRON blocks become events: on these chains a call may go on with any list. That TRON's loop, like the EVM one, only logs what fails (internal/blockchain/tron/processor.go:127-142) is taken as given.
- Wallets added or removed while a UTXO block or a Solana transaction is being processed: lookups within one call see one list.
- Sizing and hashing inside a Bloom filter: bit positions are an arbitrary function of capacity and address.
- A Bloom refresh concurrent with an add: operations on the watch list are atomic.
- `BatchCall`'s own choice of a provider inside a retried operation.
- The block cache dropped after marking, statistics, health reports, worker and queue sizing, configuration, the HTTP API and metrics: easy members only.
- EvmBlock.EthereumProcessor.ProcessBlock: starts from a fetched block and its recorded progress; a failed fetch does nothing, and an unsupported transaction type, which the code counts as a finished block, hands nothing on. Batch sizes are positive, since with 0 the loop in the code does not end.
