# Paraxiom pallets: a verified model

Dafny 4.11 models of the on-chain state machines of the repository, with proofs about every input
and every run. Check everything with `dafny verify dfyconfig.toml`.

| files | what they model |
|---|---|
| `Primitives`, `Storage` | bytes, the little-endian `u32`, and the storage that the registry, anchor and oracle pallets share |
| `Queue`, `QueueRuns` | the anchor's message queue: byte keys in the key/value store, and the FIFO queue they stand for |
| `Anchor`, `Runtime` | `claim_name`, `rollup`, `push_message`, `request`, `on_response`: what each does to storage, and the pallets as they run (loops, in-place updates, restore on error) |
| `Outcomes` | when each of these calls is accepted, with which error it is refused otherwise, what it writes and leaves alone, and what storage holds after a run |
| `Isolation`, `Serial`, `OracleRuns` | isolation and commutation of rollups, serializability of rollup clients, where requests and responses come from |
| `Consumers` | rollup clients that take messages from the queue: exactly-once processing |
| `Collators`, `CollatorSelection`, `CollatorProofs`, `CollatorRuns`, `Pot` | collator selection: the calls, the pallet as it runs, the kick loop in closed form, bonds, bounds, the reward pot |
| `Trader`, `TraderProofs` | `TakeFirstAssetTrader`: purchase, refunds, drop |
| `Median`, `ParaOracle`, `ParaOracleRuns` | the combining of raw values and the feeding pallet |
| `MessageQueueChain` | the message hash chain and the mocked channel heads |

## How it is built

Each pallet is a class whose methods change its fields as the source changes storage. A method is
proved equal to a function of the old state, and the theorems are about that function, or about
sequences of it: runs are lists of steps, and properties of runs hold for every list. `Perform`
in each class shows that its methods take exactly those steps.

Facts worth knowing when reading the results:

* **Panics and wrap-around are modelled.** A `_head` or `_tail` entry that does not decode makes the
  reader panic: outcome `Trap`, no effect. `end + 1` in `push_message` wraps, as the release profile
  has no overflow checks. So a push extends the queue if and only if the tail is below 2^32 - 1
  (`PushAppendsIff`); `PushAtLastIndexWraps` is a state, two calls from genesis, on which it does
  not. Over runs the tail is the number of pushes, and a FIFO queue needs fewer than 2^32 of them.
* **A rollup's updates may name any key of its owner**, including the queue's own. `Spares` is the
  exact condition, read off the transaction and the store before it, under which what waits only
  loses a prefix (`OwnRollupDropsIff`); not writing the queue's keys, or writing back what they
  held, is enough (`KeepingSpares`), and `QueueKeyUpdateBreaks` is an update that loses the queue.
  Both conditions together are necessary and sufficient along every run (`QueueIsFifoIff`).
* **Exactly once.** Clients that read the head and the messages they take, and attach what they read
  as conditions, process each message once, as it was pushed, however they interleave
  (`ExactlyOnce`). `TakeOneConsumes` gives such a client, `TakeOneHandles` an interleaving in which it
  takes a message.
* **Outcomes are exact.** For every call the condition for acceptance and the condition for each
  error are stated on the state before it (`RollupIff`, `PushIff`, `RequestIff`, `RegisterIff`,
  `LeaveIff`, `SetInvulnerablesIff`, `BuyIff`), and what is neither queue nor mentioned by a rollup
  of the owner is never written (`StepStores`, `StoreIsWritten`).
* **Expiry wraps** as the index does: a timestamp that plus the expiry passes 2^128 is taken for an
  old one (`FreshIff`).
* **The code and its comments differ** on the queue: the comment at
  `pallets/offchain-rollup/src/anchor.rs:42` calls the tail the id of the last unprocessed message;
  the code returns one past it.
* **Clients** are deterministic functions from what they have read to the next read or the final
  transaction. They may read at different moments, any number of them interleaved, and try again.
  Rejected submissions and reads leave no entry in the serial history.
* **Request ids are not unique**: the seed drops the nonce. Nothing here relies on uniqueness.
* **`set_invulnerables` may name a sitting candidate or repeat an account**; then the collator list
  repeats it. `CollatorsDistinctIff` gives the exact condition on the state before the session,
  `InvulnerableCandidateListedTwice` an instance.
* **The middle value is the upper median** (index count / 2). It lies between honest values for
  certain if and only if fewer than half of the values are faulty (`MinorityIff`).
* **Responses** of one account, under two names it owns, may answer the same request; the later
  answer stays. This is the only way two rollups under different names can fail to commute
  (`RollupsCommuteIff`).
* **Ties**: which of several equal values is returned is up to the library's selection, so
  statements about combined values compare values, not timestamps.

## Model

| member | source | states |
|---|---|---|
| Queue.QueueKeysDistinct | pallets/offchain-rollup/src/anchor.rs:292-297 | head, tail and all slot keys of a queue differ, whatever the prefix |
| Primitives.U32RoundTrip | pallets/offchain-rollup/src/anchor.rs:262-275 | a stored `u32` index decodes to itself |
| Primitives.U32Digits | pallets/offchain-rollup/src/anchor.rs:262-275 | the stored bytes are the digits of the index to the base 256, least significant first, and nothing else decodes to it |
| Queue.QueueKeysAre | pallets/offchain-rollup/src/anchor.rs:292-297 | the keys of a queue are prefix + `_head`, prefix + `_tail` and prefix + the four bytes of an index, no others |
| Queue.QueueLayout | pallets/offchain-rollup/src/anchor.rs:240-300 | byte by byte, where a client finds the indices and each waiting message, and that no other slot is stored |
| Queue.PushAppends | pallets/offchain-rollup/src/anchor.rs:234-237 | the waiting messages become the old ones followed by the new one, and the stored slots are again exactly [head, tail) |
| Queue.PushAppendsIff | pallets/offchain-rollup/src/anchor.rs:234-237 | an accepted push extends the queue iff the tail is below 2^32 - 1 |
| Queue.SetHeadDrops | pallets/offchain-rollup/src/anchor.rs:277-286 | setting the head succeeds iff head <= index <= tail; it drops exactly the first messages and keeps the rest in order; the only error is `InvalidQueueHead` |
| Queue.SetHeadEffect | pallets/offchain-rollup/src/anchor.rs:281-284 | slot by slot: those from the old head to the new one are gone, every other slot and the tail are as before |
| Queue.SetHeadIff | pallets/offchain-rollup/src/anchor.rs:277-286 | on any store: when setting the head is accepted, the error otherwise, and what every key of every name holds afterwards |
| QueueRuns.StepOnQueue | pallets/offchain-rollup/src/anchor.rs:167-286 | any one call of any pallet either appends the message it pushed under this name or drops a prefix of its queue; a rollup under the name does so if it meets the exact condition below |
| QueueRuns.ActionsAdvance | pallets/offchain-rollup/src/anchor.rs:193-205 | on any store, accepted actions move the head to the last one set: slot by slot, those between the old head and it are gone and nothing else of the queue changes |
| QueueRuns.OwnRollupDropsIff | pallets/offchain-rollup/src/anchor.rs:185-205 | an accepted rollup under the name leaves what was waiting, less a prefix, iff, read off its updates, its last head and the store before it: the tail reads as before, the new head lies between the old head and the tail, and each slot ends as advancing the old head would leave it |
| QueueRuns.UpdatesKeepQueueIff | pallets/offchain-rollup/src/anchor.rs:185-191 | updates leave every key of the queue as it was iff each is not written or is written back last with the value it held |
| QueueRuns.KeepingSpares | pallets/offchain-rollup/src/anchor.rs:185-205 | such updates meet the exact condition, whatever the actions |
| QueueRuns.KeepingSparesQueue | pallets/offchain-rollup/src/anchor.rs:185-205 | over every run with fewer than 2^32 pushes: if each accepted rollup under the name keeps the queue's keys in that sense, each meets the exact condition |
| QueueRuns.QueueIsFifo | pallets/offchain-rollup/src/anchor.rs:225-309 | over every run that meets the condition at each accepted rollup and pushes fewer than 2^32 messages: pushed == consumed followed by pending, returned ids are 0, 1, 2, ..., exactly the slots in [head, tail) are stored, at most `QueueCapacity` wait, and head counts the removals |
| QueueRuns.QueueIsFifoIff | pallets/offchain-rollup/src/anchor.rs:225-309 | both conditions are exact: all this holds at every point of a run iff each accepted rollup under the name spares the queue and fewer than 2^32 messages are pushed to it |
| QueueRuns.QueueKeyUpdateBreaks | pallets/offchain-rollup/src/anchor.rs:185-191 | an accepted rollup that stores an undecodable tail, after which every push panics |
| QueueRuns.PushAtLastIndexWraps | pallets/offchain-rollup/src/anchor.rs:234-237 | after a claim and one accepted rollup the queue is well formed, and the next push is accepted, wraps the tail to 0 and loses the queue |
| Runtime.Pallets.ClaimName | pallets/offchain-rollup/src/anchor.rs:149-161 | a claim succeeds iff the name is free and makes the caller its owner |
| Runtime.Pallets.PushMessage | pallets/offchain-rollup/src/anchor.rs:225-238 | accepted iff the name is claimed, both indices decode and there is room, each error iff its own condition; the message is in the tail's slot, and every key of every name but that slot and the tail is as before; on error the store is unchanged |
| Runtime.Pallets.QueueHeadSet | pallets/offchain-rollup/src/anchor.rs:277-286 | the deleting loop leaves the specified store, iff both indices decode and the new head lies between them; or an error and an unchanged store |
| Runtime.Pallets.CheckConds | pallets/offchain-rollup/src/anchor.rs:177-183 | true iff every condition matches the store |
| Runtime.Pallets.ApplyUpdates | pallets/offchain-rollup/src/anchor.rs:185-191 | the loop applies all updates in order |
| Runtime.Pallets.ExecActions | pallets/offchain-rollup/src/anchor.rs:193-205 | the loop runs the actions in order and stops with the first error |
| Anchor.FirstFailureDecides | pallets/offchain-rollup/src/anchor.rs:193-205 | once a prefix of the actions fails, the whole list fails with that error |
| Runtime.Pallets.Rollup | pallets/offchain-rollup/src/anchor.rs:164-211 | accepted iff the submitter owns the name, all conditions match and every action fits, refused with the error of the first thing that does not; atomic: on any error anchor and oracle storage are as before, nested responses included |
| Outcomes.RollupIff | pallets/offchain-rollup/src/anchor.rs:164-222 | read off the transaction and the state before: acceptance iff the owner submits, all conditions match, every action decodes, every reply names this contract and a stored request, every head lies between the head it finds and the tail; each error iff its own condition, the first action at fault deciding |
| Outcomes.AcceptedByClaimer | pallets/offchain-rollup/src/anchor.rs:149-219 | over every run, only the account that claimed a name first has a rollup accepted under it |
| Outcomes.PushIff | pallets/offchain-rollup/src/anchor.rs:225-237 | on any store, well formed or not: a push is accepted iff the name is claimed, both indices decode and fewer than `QueueCapacity` wait; each error iff its own condition |
| Outcomes.PushStores | pallets/offchain-rollup/src/anchor.rs:225-237 | on any store, what every key of every name holds after an accepted push, byte for byte |
| Outcomes.StepStores | pallets/offchain-rollup/src/anchor.rs:164-238 | under every name a key outside the queue is changed only by an accepted rollup of its owner, to its last update; no push, request, claim or other rollup touches it |
| Outcomes.StoreIsWritten | pallets/offchain-rollup/src/anchor.rs:185-191 | over every run, a key outside the queue holds what an accepted rollup of its name wrote last |
| Outcomes.StoredOrigin | pallets/offchain-rollup/src/anchor.rs:149-191 | every value stored outside a queue was written by an accepted rollup of the account that owns the name, then and now, and no later accepted rollup mentions its key |
| Outcomes.StepKeeps | pallets/offchain-rollup/src/anchor.rs:149-211 | names are changed by accepted claims only, feeds by the registry only, requests by accepted requests only, each response by accepted rollups of its account only, and exactly as said |
| Runtime.Pallets.Perform | pallets/offchain-rollup/src/anchor.rs:142-238 | each call takes exactly one step of the runs that the theorems quantify over |
| Isolation.RollupStores | pallets/offchain-rollup/src/anchor.rs:185-205 | after a successful rollup every key outside the queue holds its last update, or its old value if it has none, whatever the actions did |
| Isolation.RollupTouches | pallets/offchain-rollup/src/anchor.rs:167-211 | a successful rollup changes the store only under its own name and responses only under its submitter; owners, feeds and requests never |
| Isolation.RollupAnswers | pallets/oracle/src/lib.rs:224-240 | after a successful rollup each request holds, under the submitter, the last answer given to it, or its old answer if there is none |
| Isolation.RollupAgrees | pallets/offchain-rollup/src/anchor.rs:167-211 | the outcome of a rollup, replies included, depends only on owners, requests and the store under its name |
| Isolation.ResultsCommute | pallets/offchain-rollup/src/anchor.rs:167-211 | whoever submits and whatever they reply, a rollup has the same result, error included, whether or not one under another name ran before it |
| Isolation.RollupsCommuteIff | pallets/offchain-rollup/src/anchor.rs:167-211 | two rollups under different names end in the same state in both orders iff it is not the case that both are accepted, share their submitter and answer some request differently |
| Isolation.AnswersOfOneSubmitterConflict | pallets/oracle/src/lib.rs:236-240 | an instance of the exception on a state reached from genesis by four ordinary calls |
| Serial.StaleOrAlone | pallets/offchain-rollup/src/anchor.rs:167-183 | with one stale read a submission is refused without effect, with `CondNotMet` if the client owns the name; with none it is, accepted or not, what the client would do had it read everything from the current storage |
| Serial.AloneIsUnique | pallets/offchain-rollup/src/anchor.rs:177-183 | a deterministic client has one transcript per store |
| Serial.Serializable | pallets/offchain-rollup/src/anchor.rs:167-211 | any interleaving of reads, submissions and other chain activity ends in the storage of running only the accepted clients, each alone and atomically, in acceptance order |
| Consumers.ChainIsRun | pallets/offchain-rollup/src/anchor.rs:142-238 | an interleaving of clients and chain activity ends in the storage of the run of the calls that it makes |
| Consumers.AcceptedReads | pallets/offchain-rollup/src/anchor.rs:177-205 | everything an accepted client read is what storage holds at acceptance, and its last `SetQueueHead` is the head afterwards |
| Consumers.HandledIsPushed | pallets/offchain-rollup/src/anchor.rs:177-286 | a message that an accepted submission took under an id is the message pushed with that id, however long ago the client read it |
| Consumers.HandledOnce | pallets/offchain-rollup/src/anchor.rs:177-286 | in any interleaving no message is taken by two accepted submissions, of one client or of two |
| Consumers.ExactlyOnce | pallets/offchain-rollup/src/anchor.rs:167-286 | in any interleaving of guarded consumers with each other and the chain, each message below the head was taken, as pushed, by exactly one accepted submission, and none at or above it was taken |
| Runtime.Pallets.Request | pallets/oracle/src/lib.rs:124-184 | accepted iff the feed is there and active, the message fits, and the chosen name has room, each error iff its own condition; then the request is stored with the bytes id, url, path, which are also what is put into the tail's slot; a failing one changes neither, although it stores before it pushes |
| Outcomes.RequestIff | pallets/oracle/src/lib.rs:124-175 | whether a request is accepted, with which of six outcomes it is refused otherwise, and which name gets its message, read off the state before |
| Outcomes.RequestSends | pallets/oracle/src/lib.rs:149-175 | an accepted request appends exactly id + encoded (url, path) of its feed to the queue of that name, if it is well formed and below the last index, and stores the same bytes under its id; nothing else changes |
| Runtime.Pallets.OnResponse | pallets/oracle/src/lib.rs:224-251 | a response is filed, or refused with the right error and no effect |
| OracleRuns.OwnerOrigin | pallets/offchain-rollup/src/anchor.rs:149-161 | over every run a name belongs to the account that claimed it first |
| OracleRuns.RunKeeps | pallets/offchain-rollup/src/anchor.rs:143-161 | owners and request ids never go away or change owner |
| OracleRuns.RequestOrigin | pallets/oracle/src/lib.rs:133-163 | every stored request was stored under its id by an earlier successful `request` on an active feed |
| OracleRuns.PushedIdIsStored | pallets/oracle/src/lib.rs:149-175 | every message the oracle pushed, into whatever queue, is the id of a stored request, then and ever after, followed by the encoded url and path of the feed |
| OracleRuns.PendingCanBeAnswered | pallets/oracle/src/lib.rs:149-175 | while only the oracle pushes to a name and the queue is first-in first-out, everything waiting in its queue carries the id of a stored request |
| OracleRuns.ResponseOrigin | pallets/oracle/src/lib.rs:224-240 | every stored response was filed by an accepted rollup of the account it is filed under, which owns, then and now, the name that the response names as its contract; the request under the very id it names was stored by a still earlier step |
| Outcomes.ResponseIsFiled | pallets/oracle/src/lib.rs:224-240 | over every run, the response stored for a request under an account is the last that an accepted rollup of that account gave to it |
| CollatorSelection.Pallet.constructor | pallets/collator-selection/src/lib.rs:226-245 | genesis, under the conditions it asserts, stores its settings and no candidates |
| CollatorSelection.Pallet.SetInvulnerables | pallets/collator-selection/src/lib.rs:291-314 | accepted iff the list is not too long and all its accounts have registered keys, and then stored as it is; otherwise the error of the first account at fault and no effect |
| CollatorProofs.SetInvulnerablesIff | pallets/collator-selection/src/lib.rs:291-314 | the same on values, each error iff its own condition |
| CollatorProofs.CheckKeysIff | pallets/collator-selection/src/lib.rs:300-307 | a list is accepted iff every account has registered keys |
| CollatorSelection.Pallet.RegisterAsCandidate | pallets/collator-selection/src/lib.rs:354-390 | accepted iff there is room under both limits, the account is neither invulnerable nor a candidate, its session keys are registered and the bond can be reserved; it goes to the end of the list; each error iff its own condition, and a reserve taken before a late failure is undone |
| CollatorProofs.RegisterIff | pallets/collator-selection/src/lib.rs:354-390 | the same on values: acceptance, the place in the list, and every error, the currency's veto included |
| CollatorSelection.Pallet.TryRemoveCandidate | pallets/collator-selection/src/lib.rs:419-433 | removes the entry, unreserves, forgets the last-authored block; or reports `NotCandidate` |
| CollatorSelection.Pallet.LeaveIntent | pallets/collator-selection/src/lib.rs:400-409 | a candidate, and nobody else, can leave, iff there are more than the minimum |
| CollatorProofs.LeaveIff | pallets/collator-selection/src/lib.rs:400-424 | the same on values, with both errors |
| CollatorSelection.Pallet.KickStaleCandidates | pallets/collator-selection/src/lib.rs:448-474 | the loop over the snapshot does turn by turn what re-reading live storage says, and returns no more than it was given, so the `expect` is safe |
| CollatorSelection.Pallet.AssembleCollators | pallets/collator-selection/src/lib.rs:438-444 | invulnerables first, then the active candidates |
| CollatorSelection.Pallet.NewSession | pallets/collator-selection/src/lib.rs:505-523 | kick then assemble; the count of removed candidates does not underflow |
| CollatorSelection.Pallet.NoteAuthor | pallets/collator-selection/src/lib.rs:484-494 | pays from the pot if the transfer goes through and always records the block |
| CollatorSelection.Pallet.Perform | pallets/collator-selection/src/lib.rs:291-523 | each call takes exactly one step of the runs that the theorems quantify over |
| CollatorProofs.RemoveKeeps | pallets/collator-selection/src/lib.rs:419-433 | removing a candidate never fails, returns its whole deposit to it, leaves every other account's balances and entry alone, and keeps the invariant |
| CollatorProofs.RegisterKeeps | pallets/collator-selection/src/lib.rs:354-386 | registering keeps the invariant and everyone's total |
| CollatorProofs.LeaveUndoesRegister | pallets/collator-selection/src/lib.rs:354-433 | registering and leaving again restores the list and every balance |
| CollatorProofs.KeptSize | pallets/collator-selection/src/lib.rs:448-474 | the number removed is min(stale, how far the count is above the minimum) |
| CollatorProofs.KeptIff | pallets/collator-selection/src/lib.rs:448-474 | an entry is removed iff it is stale and fewer stale entries than the quota precede it |
| CollatorProofs.KickClosedForm | pallets/collator-selection/src/lib.rs:448-474 | walking a snapshot while storage shrinks removes exactly the first min(#stale, max(0, len - MinCandidates)) stale ones in list order; the returned list is, in order, who is left in storage; money is conserved |
| CollatorProofs.StaleSurvivorsNeedMinimum | pallets/collator-selection/src/lib.rs:456-474 | a stale candidate left after a session change implies the count is at most MinCandidates |
| CollatorProofs.RemovedIff | pallets/collator-selection/src/lib.rs:448-474 | read off the state before: a session change removes entry i iff it is stale and fewer stale entries than the quota precede it |
| CollatorProofs.CollatorsDistinctIff | pallets/collator-selection/src/lib.rs:438-444 | read off the state before: the collator list names nobody twice iff the invulnerables are distinct and every candidate among them is one that the kick takes |
| CollatorProofs.InvulnerableCandidateListedTwice | pallets/collator-selection/src/lib.rs:291-314 | two calls from genesis: an account registers and is then named invulnerable, which is accepted, and the next session lists it twice |
| CollatorRuns.RunInv | pallets/collator-selection/src/lib.rs:286-523 | over every run: candidates never repeat, never exceed MaxCandidates, each has a last-authored entry and its deposit in reserve |
| CollatorRuns.CandidateOrigin | pallets/collator-selection/src/lib.rs:354-386 | over every run, each candidate was let in by an accepted registration with registered session keys and has been a candidate ever since |
| CollatorRuns.CollatorOrigin | pallets/collator-selection/src/lib.rs:291-523 | over every run, whoever a session change hands to the session pallet was let in with registered keys, as a candidate or as an invulnerable, or is invulnerable since genesis |
| CollatorRuns.SessionList | pallets/collator-selection/src/lib.rs:438-517 | the list handed over is the invulnerables, in order, then the candidates left, in order |
| CollatorRuns.StepChanges | pallets/collator-selection/src/lib.rs:291-494 | settings, invulnerables, the clock and the authoring record change only by their own call, and exactly as said; authoring is recorded for every author |
| CollatorRuns.StepBounds | pallets/collator-selection/src/lib.rs:357-406 | a count at or above the minimum stays there, and a count at or above DesiredCandidates does not grow |
| CollatorRuns.RunFloor | pallets/collator-selection/src/lib.rs:395-406 | once the minimum is reached it holds for the rest of the run |
| CollatorRuns.DepositIsPaidIn | pallets/collator-selection/src/lib.rs:369-381 | however often the bond changes, a candidate's deposit is the bond in force when it registered |
| CollatorRuns.RefundIsPaidIn | pallets/collator-selection/src/lib.rs:419-474 | whoever leaves or is kicked gets back at that moment exactly what it paid in, and what other pallets hold in reserve is untouched |
| CollatorRuns.ReserveIs | pallets/collator-selection/src/lib.rs:354-494 | over every run, authored blocks and other pallets' activity included: what is reserved on an account is what other pallets last set there, or the genesis reserve, plus exactly its candidate deposit |
| CollatorRuns.RunConserves | pallets/collator-selection/src/lib.rs:354-494 | an account's total changes only by a block it authors, by blocks if it is the pot, or by another pallet acting on it; no call of candidates or governance moves money between accounts |
| CollatorRuns.EntryIsLastSeen | pallets/collator-selection/src/lib.rs:370-383 | a candidate's entry is the block it last authored, or KickThreshold after its registration if it has not authored since |
| CollatorRuns.KickIsJustified | pallets/collator-selection/src/lib.rs:448-474 | a candidate kicked at block n authored nothing in (n - K, n]; if it never authored since registering at b, n >= b + 2K |
| CollatorRuns.KickedIff | pallets/collator-selection/src/lib.rs:448-474 | over every run, a session change at block n kicks a candidate iff it is idle (last authored at b with b + K <= n, or registered at b without authoring since with b + 2K <= n) and fewer idle candidates precede it than the minimum allows to go |
| CollatorRuns.SessionsDistinct | pallets/collator-selection/src/lib.rs:438-444 | in runs where governance names no sitting candidate and nobody twice, every collator list is free of repeats |
| Pot.OneBlock | pallets/collator-selection/src/lib.rs:484-494 | a block pays half of the pot's excess, rounded down, to its author and nobody else |
| Pot.PotHalves | pallets/collator-selection/src/lib.rs:484-494 | after n blocks whose author can be paid at that moment, with unpaid blocks and other calls anywhere between, the pot's excess is ceil(p / 2^n) and the authors together have the rest; no money appears or disappears |
| Trader.TakeFirstAssetTrader.BuyWeight | primitives/utility/src/lib.rs:147-198 | the in-place purchase: the specified record and unused assets, or an error and an unchanged trader |
| Trader.TakeFirstAssetTrader.RefundWeight | primitives/utility/src/lib.rs:200-256 | the in-place refund gives the specified record and asset |
| TraderProofs.BuyKeeps | primitives/utility/src/lib.rs:186-197 | the payment is the unused assets plus what is held, asset by asset |
| TraderProofs.BuyIff | primitives/utility/src/lib.rs:147-198 | a purchase goes through iff nothing was bought before and the first asset is fungible, known, priced and covers the price (the fee, at least the minimum balance, below 2^128); what is held is the price, what comes back is the payment less the price, entry by entry; each of the five errors iff its own condition |
| TraderProofs.RefundIs | primitives/utility/src/lib.rs:213-252 | a refund lowers the outstanding amount by the fee, not below the minimum, and pays exactly the difference: no saturation takes effect |
| TraderProofs.RefundsClosedForm | primitives/utility/src/lib.rs:200-256 | any sequence of refunds pays min(sum of fees, C - m) in total and leaves max(0, W - sum of weights) in each component |
| TraderProofs.RefundOrderIrrelevant | primitives/utility/src/lib.rs:200-256 | the order of refunds changes neither the total nor what is left |
| TraderProofs.LifeConserves | primitives/utility/src/lib.rs:147-273 | for every sequence of purchases, failed and repeated ones included, and refunds: payments == returned + revenue at drop, and the revenue is at least the minimum balance |
| TraderProofs.SellsOnce | primitives/utility/src/lib.rs:154-157 | after a successful purchase every further one fails |
| TraderProofs.SoldIff | primitives/utility/src/lib.rs:147-273 | over every sequence of calls something is left for the revenue handler iff one of the purchases was affordable |
| TraderProofs.Perform | primitives/utility/src/lib.rs:147-256 | one call on the object: what it holds and what the caller has back are those of the life |
| TraderProofs.Live | primitives/utility/src/lib.rs:141-273 | a trader object from creation to drop: whatever the calls, payments are what callers have back plus what the drop hands to the revenue handler, which is at least the minimum balance; there is revenue iff one of the purchases was affordable |
| Median.Retain | pallets/para-oracle/src/default_combine_data.rs:24-27 | the in-place filter keeps every copy of each value whose age is below the expiry and none of the others, in order, unless timestamp plus expiry passes 2^128 |
| Median.FreshIff | pallets/para-oracle/src/default_combine_data.rs:24-27 | for every age: a value is kept iff now < timestamp + expiry when that is a `u128`, and iff now + 2^128 < timestamp + expiry when it wraps |
| Median.FilterPlaces | pallets/para-oracle/src/default_combine_data.rs:24-27 | the k-th value kept is the k-th unexpired one |
| Median.SelectNth | pallets/para-oracle/src/default_combine_data.rs:35-37 | the in-place selection permutes, with nothing larger before index k and nothing smaller after |
| Median.CombineData | pallets/para-oracle/src/default_combine_data.rs:19-39 | with too few unexpired values the previous value; otherwise one of them, and its value has rank count / 2; unexpired means an age below the expiry, wrapping aside |
| Median.NthIsUnique | pallets/para-oracle/src/default_combine_data.rs:35-37 | one value per rank |
| Median.NthOfSorted | pallets/para-oracle/src/default_combine_data.rs:35-38 | the value of rank k is element k of the sorted list |
| Median.OrderIrrelevant | pallets/para-oracle/src/default_combine_data.rs:19-39 | the combined value does not depend on the order in which raw values are enumerated |
| Median.MedianBetweenHonest | pallets/para-oracle/src/default_combine_data.rs:27-38 | with fewer than half faulty the result lies between honest values |
| Median.HalfFaultyDecides | pallets/para-oracle/src/default_combine_data.rs:35-38 | for every size and every choice of at least half of the places: faulty values there can push the result above every honest one |
| Median.MinorityIff | pallets/para-oracle/src/default_combine_data.rs:27-38 | the threshold: the result is sure to lie between honest values iff fewer than half of the places are faulty |
| Median.OneValueMovesOneRank | pallets/para-oracle/src/default_combine_data.rs:35-38 | replacing any one value moves the result by at most one place of the old sorted list |
| ParaOracle.Pallet.ReadRawValues | pallets/para-oracle/src/lib.rs:805-809 | collects each raw value of the key exactly once, in whatever order storage is walked |
| ParaOracle.Pallet.CombinedValue | pallets/para-oracle/src/lib.rs:821-824 | the median of the raw values of the key whose age is below the expiry, stated on sets, and it is one of them; else the stored value |
| ParaOracle.MedianExists | pallets/para-oracle/src/default_combine_data.rs:31-38 | enough unexpired values always have a median |
| ParaOracle.MedianIsUnique | pallets/para-oracle/src/default_combine_data.rs:35-38 | and only one |
| ParaOracle.CombinedAgrees | pallets/para-oracle/src/lib.rs:821-824 | what the code combines is, on values, that median |
| ParaOracle.FreshForIsLive | pallets/para-oracle/src/default_combine_data.rs:24-27 | the entries that count are those whose age is below the expiry |
| ParaOracle.ExpiredIrrelevant | pallets/para-oracle/src/lib.rs:805-824 | entries past their expiry have no influence on what is combined: they may be absent or hold anything |
| ParaOracle.Pallet.FeedData | pallets/para-oracle/src/lib.rs:316-394 | accepted iff the creator has not fed since the last finalization and there is room; then the specified raw and combined values, none of which comes from nowhere; otherwise no effect |
| ParaOracle.Pallet.OnFinalize | pallets/para-oracle/src/lib.rs:267-270 | every creator may feed again |
| ParaOracleRuns.FeedAllIsFedInto | pallets/para-oracle/src/lib.rs:332-344 | after feeding a list each fed key has the last value fed and the combination of all its raw values; keys not fed are untouched |
| ParaOracleRuns.SameLastSameFeed | pallets/para-oracle/src/lib.rs:332-344 | lists with the same keys and last values end in the same storage, on values |
| ParaOracleRuns.LastWins | pallets/para-oracle/src/lib.rs:332-344 | feeding repeated keys is feeding the last entry of each; no condition on the expiry is needed |
| ParaOracleRuns.HonestMajorityBounds | pallets/para-oracle/src/lib.rs:821-824 | with fewer than half of a key's unexpired entries from faulty feeders, the combined value lies between honest ones |
| ParaOracleRuns.JustFedCountsIff | pallets/para-oracle/src/default_combine_data.rs:24-27 | a value fed now is unexpired iff the expiry is positive and `now` plus the expiry stays below 2^128 |
| ParaOracleRuns.FedKeysHaveValues | pallets/para-oracle/src/lib.rs:332-344 | then, with a minimum count of at most 1, every fed key has a combined value |
| ParaOracleRuns.RawOrigin | pallets/para-oracle/src/lib.rs:332-338 | every raw value was fed by its creator, for its key, at its timestamp |
| ParaOracleRuns.ValueOrigin | pallets/para-oracle/src/lib.rs:332-344 | every combined value in storage was fed for its key, with its timestamp, by an accepted feed of the run |
| ParaOracleRuns.CacheAgrees | pallets/para-oracle/src/lib.rs:332-344 | over every run, the stored value of a key that was ever fed is what its raw values, as they are now, combined to at the last accepted feed of that key |
| ParaOracleRuns.StoredIsMiddleOfLive | pallets/para-oracle/src/lib.rs:332-344 | over every run whose clock stays an expiry below 2^128, the stored value of a fed key is the middle of the raw values whose age was below the expiry at the key's last accepted feed |
| ParaOracleRuns.OneFeedPerBlock | pallets/para-oracle/src/lib.rs:326-330 | between two finalizations a second feed of the same creator is refused without effect |
| ParaOracleRuns.Perform | pallets/para-oracle/src/lib.rs:267-394 | the calls take exactly the steps that runs are made of |
| MessageQueueChain.Chain.ExtendHrmp | primitives/parachain-inherent/src/lib.rs:91-99 | the head becomes the link of the old head, the block number and the body hash |
| MessageQueueChain.Chain.ExtendDownward | primitives/parachain-inherent/src/lib.rs:103-111 | the same for downward messages |
| MessageQueueChain.EqualHeads | primitives/parachain-inherent/src/lib.rs:75-84 | without collisions, equal heads mean that one list is the end of the other and where its chain started |
| MessageQueueChain.SameLengthSameHeads | primitives/parachain-inherent/src/lib.rs:75-84 | for lists of one length: equal heads iff equal lists and equal starting heads |
| MessageQueueChain.FromEmptyIffSame | primitives/parachain-inherent/src/lib.rs:78-79 | from the zero hash, if no link hashes to it: equal heads iff equal lists, of any lengths |
| MessageQueueChain.FoldAppend | primitives/parachain-inherent/src/lib.rs:91-111 | extending by two lists in turn is extending by their concatenation |
| MessageQueueChain.ProvideDownward | primitives/parachain-inherent/src/mock.rs:166-175 | message i is raw message i with the block number, and the head is their chain from the configured start |
| MessageQueueChain.ProvideHorizontal | primitives/parachain-inherent/src/mock.rs:177-199 | each channel has exactly its messages, in arrival order, and its head is their chain from its own start |
| MessageQueueChain.ChannelPlaces | primitives/parachain-inherent/src/mock.rs:177-184 | the k-th message of a channel is the k-th raw message that names it, with the relay block number |
| MessageQueueChain.OtherChannelsIrrelevant | primitives/parachain-inherent/src/mock.rs:180-184 | a channel's messages do not depend on which messages of other channels there are nor on how they are interleaved |

## Left out

- Median.SelectNth: the standard library's selection algorithm is outside this repository; the loop here selects by repeated minimum under the same contract.
- ParaOracle.Pallet.ReadRawValues: the order in which storage is walked is left open, so a statement about which of several equal values is returned is not made.
- The SCALE codec: action, response and feed encodings are given functions; only the `u32` and the raw index keys are spelled out.
- Pseudo-randomness and storage iteration order: the request id and the last key of the owner map are inputs.
- Balances beyond free and reserved amounts: locks are a yes/no input to registering, and amounts do not overflow; the currency pallet is not part of this model.
- Block numbers, `i64` and balances are unbounded; vector lengths stay below 2^32.
- Origin checks: calls are modelled after the caller has been identified or the root origin confirmed.
- The registry: a feed map that the environment changes, since no code in the repository activates a feed.
- XCM matching and fee charging: given functions, constant over a trader's life, that pass amounts through unchanged.
- `submit_api`, `remove_api`, `xcm_query_data`, `feeds` and `average`: plain inserts, lookups and stubs.
- Off-chain worker, HTTP, signing, events, weights, runtime and node wiring, `ParentAsUmp`, `XcmFeesTo32ByteAccount`.
- The relay block number and proof construction in the mocked inherent data.
