# AlkanesIndexer: verified models of its state machines, contracts and parsers

This project models four parts of the repository in Dafny and proves what they promise:

- **Engine miner** (`Engine*.dfy`): the round and claim service. One active round keeps a first-come queue of
  solvers; at most one of them holds a paid-reservation window. Reservations time out, are rejected or become the
  round's win; wins become rewards, rewards become receipts, receipts become submissions. `EngineSpec` is the service
  as a transition function over states, requests and replies; `EngineService` is the service as the program runs it,
  objects whose fields are updated in place, every method proved to do exactly what the transition function says.
  `EngineInvariant` and `EngineRuns` carry the invariant through every phase of every request, including requests
  that throw after part of their writes; `EnginePasses` says which reconciliations a request runs, `EngineReservations`
  what one does, `EnginePayments`, `EngineAttempts` and `EngineReplies` what payments, answers and the other requests
  lead to, in terms of the request and the state it meets; `EngineTheorems` and `EngineTermination` state the results
  for all runs.
- **DIESEL** (`Diesel*.dfy`): the halving schedule and the legacy and upgraded mainnet token contracts, and from which
  genesis heights either can run into its cap. `DieselMints` states the outcome of every call without the program's
  own fee and share computations.
- **Merkle distributor** (`Merkle*.dfy`): sorted-pair folding, the claim contract on top of it, what runs of claims are
  paid, and whole lives of a distributor that anybody may try to initialize again. `Utf8` is the form of its addresses.
- **Zcash** (`Zcash*.dfy`): the block and transaction parser against a printer for the specified layouts, what it makes
  of those it does not read in step, and the resolution of output pointers. `Bytes` holds little-endian numbers,
  `Common` finite sums, `Parcels` token transfers.

`dafny verify dfyconfig.toml` checks all of it.

## How the outside world enters

- **Engine miner.** Clock readings, balance and transaction lookups, signing, settlement and freshly drawn identifiers
  are part of each request (`Pass`, `Opening` and the fields of `Request`); a balance missing from a pass is a lookup
  that throws. Identifiers only have to differ from those stored (`Fresh`). No order of clock readings is assumed
  except where a theorem states it. A request runs to its end before the next one starts: the theorems do not speak
  about requests interleaved at the two awaits (`engine-miner-service.ts:549` and `:793`).
- **DIESEL.** `number_diesel_mints` and `total_miner_fee` are a function of the height. A call that returns an error
  leaves storage as it was. A division by zero mints is a trap and counts as an error. Heights are below
  128 * 210000, where the program's 128-bit shift is defined. Unchecked 128-bit arithmetic wraps around. Calls bring
  in no more own tokens than are outstanding, and an auth token is not an own token.
- **Merkle distributor.** The hash is any function to 32 bytes, assumed collision-free only on the finite set of
  messages that the tree and the claim at hand hash (a hash without any collisions does not exist). The protostone
  check, the witness extraction and the address of output 0 are inputs of a claim, and the balance of the token to
  distribute is one of initialization. Unchecked 128-bit subtraction wraps around.
- **Zcash.** Declared counts are cut to a 32-bit `usize`, the width on the wasm32 target the indexer is built for.
  Transaction inputs and outputs are read by the bitcoin crate, which is not part of this model; its script lengths
  are taken to be accepted in shortest form only.

## Where the code does not do what is promised

- **Receipts.** Receipt requests may list one claim several times, and then receipts promise more than was won.
  `BalanceCanFail` is such a run; `BalanceIffNoListRepeats` shows that receipts and claimable rewards add up exactly
  when no issuable request repeats a claim.
- **Folding.** Sibling lengths are not checked. Excluding 64-byte leaves alone does not make folding sound:
  `SiblingLengthMatters` gives the trees for which a string that is no leaf folds to the root, and `PayoutCanExceed`,
  for every hash, a tree that promises nothing and pays. `FoldIffMeets` and `FoldSound` say exactly which folds are
  accepted, `OverdrawableIff` exactly when a tree can be overdrawn, and `MeasuredPayout` that 32-byte siblings and no
  64-byte leaf rule it out.
- **Leftovers.** Initialization takes the amount off every incoming transfer of the token, not off their sum, and the
  subtraction is unchecked. `LeftoversRightIff` says exactly when the right amount comes back, `LeftoversCanBeWrong`
  gives inputs on which it does not.
- **Zcash versions.** `src/zcash.rs:19-29` and `:172-174` announce all versions from 1 to 5 (and call version 2
  Overwinter). A laid-out Overwinter or Sapling transaction has the top bit of its version field set, reads as a
  negative version, and its JoinSplit and Sapling sections are then not skipped. `TxRoundTrip`: every transaction of
  versions 1 to 4 gives back its transparent part, and the cursor ends behind it exactly when the version is 1 or 2.
  `BlockRoundTrip`: in a block, parsing goes on inside the first such transaction; `ComesBackIff` says when the block
  comes back all the same, and `NoJoinSplitsNoBlock` gives blocks that do not. A version 5 transaction has other fields
  in front of its inputs, and these are read as inputs (`Version5`).
- **Premines.** The legacy cap cannot be reached exactly when the genesis call comes at height 880002 or before
  (`CapReachableIff`), the upgraded one exactly when it comes after height 900798 (`UpgradedCapReachableIff`).
- **Engine miner documents.** The server's README says that a correct submission wins at once and creates a claimable
  reward; in the code it creates a pending one, which becomes claimable with its payment. `OnlyPaymentsWin` says which
  requests win. The model follows the code.

## Model

| member | source | states |
|---|---|---|
| EngineService.ActiveRound.FindByReservation | Engine miner/engine-miner-server/src/engine-miner-service.ts:704-706 | finds the first candidate with a reservation id, or reports that there is none |
| EngineService.ActiveRound.FindBySubmission | Engine miner/engine-miner-server/src/engine-miner-service.ts:667-677 | finds the first candidate of a submission, the queue position less one |
| EngineService.EngineMinerService.GetRewardByReservationId | Engine miner/engine-miner-server/src/engine-miner-service.ts:696-702 | looks a reward up through the reservation index; both missing links give null |
| EngineService.EngineMinerService.ExpireReservation | Engine miner/engine-miner-server/src/engine-miner-service.ts:772-780 | expires the reward, frees the round and marks exactly the holder, leaving all else |
| EngineService.EngineMinerService.PromoteNextEligibleCandidate | Engine miner/engine-miner-server/src/engine-miner-service.ts:782-831 | the whole new state and error of the promotion loop, including the partial writes kept when a lookup throws |
| EngineService.EngineMinerService.ReconcileActiveRoundState | Engine miner/engine-miner-server/src/engine-miner-service.ts:833-856 | timeout, promotion and closing in this order, and what a caller still holding the round object sees |
| EngineService.EngineMinerService.EnsureActiveRound | Engine miner/engine-miner-server/src/engine-miner-service.ts:979-1015 | after success a round is active, the old one or a fresh one with the next number and its template's answer |
| EngineService.EngineMinerService.Register | Engine miner/engine-miner-server/src/engine-miner-service.ts:236-256 | a registered miner starts idle with no wins |
| EngineService.EngineMinerService.StartMining | Engine miner/engine-miner-server/src/engine-miner-service.ts:268-277 | the miner is active even if making sure of a round throws |
| EngineService.EngineMinerService.StopMining | Engine miner/engine-miner-server/src/engine-miner-service.ts:279-287 | the miner is idle and in no round, all else unchanged |
| EngineService.EngineMinerService.GetCurrentRound | Engine miner/engine-miner-server/src/engine-miner-service.ts:289-294 | new state and answer or error of the request |
| EngineService.EngineMinerService.SubmitSolution | Engine miner/engine-miner-server/src/engine-miner-service.ts:296-404 | new state and answer or error of the request for every branch |
| EngineService.EngineMinerService.AnswerActiveRound | Engine miner/engine-miner-server/src/engine-miner-service.ts:301-404 | the branches after a round is there: mismatch, expired, closed, second attempt, wrong, queued; the answer reads the round object even if it was dropped meanwhile |
| EngineService.EngineMinerService.ClaimableRewardsOf | Engine miner/engine-miner-server/src/engine-miner-service.ts:409-411 | adds up exactly the miner's claimable rewards |
| EngineService.EngineMinerService.GetMinerStatus | Engine miner/engine-miner-server/src/engine-miner-service.ts:406-423 | new state and answer or error of the request |
| EngineService.EngineMinerService.ListClaimableRewards | Engine miner/engine-miner-server/src/engine-miner-service.ts:425-434 | exactly the miner's rewards, of any status |
| EngineService.EngineMinerService.RequestClaimReceipt | Engine miner/engine-miner-server/src/engine-miner-service.ts:436-479 | new state and receipt or error of the request; nothing is issued unless every listed claim can be |
| EngineService.EngineMinerService.CollectRewards | Engine miner/engine-miner-server/src/engine-miner-service.ts:439-453 | the first obstacle among the listed claims, or their tokens and rounds in order |
| EngineService.EngineMinerService.MarkReceiptIssued | Engine miner/engine-miner-server/src/engine-miner-service.ts:472-474 | exactly the listed rewards become receipt_issued |
| EngineService.EngineMinerService.SubmitClaimPayment | Engine miner/engine-miner-server/src/engine-miner-service.ts:481-591 | new state and answer or error of the request for every branch |
| EngineService.EngineMinerService.SettleClaimPayment | Engine miner/engine-miner-server/src/engine-miner-service.ts:506-591 | repeated, expired, late, rejected and accepted payments; after an accepted one also the winner, winning submission and paid candidate on the dropped round object |
| EngineService.EngineMinerService.RecordWin | Engine miner/engine-miner-server/src/engine-miner-service.ts:564-580 | the win as written: reward, miner totals, and the dropped round left with its winner, winning submission and paid candidate |
| EngineService.EngineMinerService.ValidateClaimPayment | Engine miner/engine-miner-server/src/engine-miner-service.ts:737-770 | a found transaction counts exactly if some output pays the treasury the required fee |
| EngineService.EngineMinerService.GetClaimStatus | Engine miner/engine-miner-server/src/engine-miner-service.ts:593-613 | receipts are looked up before rewards; nothing changes |
| EngineService.EngineMinerService.SubmitClaim | Engine miner/engine-miner-server/src/engine-miner-service.ts:615-657 | new state and answer or error of the request, asking the provider only when nothing is on file |
| EngineService.EngineMinerService.Handle | Engine miner/engine-miner-server/src/engine-miner-service.ts:151-657 | any request moves the object as the transition function says and keeps the invariant |
| EngineInvariant.ScanIs | Engine miner/engine-miner-server/src/engine-miner-service.ts:787-800 | the promotion loop said without recursion: who was asked, who could not pay, where it stopped and why |
| EngineInvariant.HolderIs | Engine miner/engine-miner-server/src/engine-miner-service.ts:839-846 | an open reservation, its candidate, its reward and its index entry agree on claim, reservation, miner, round and deadline |
| EngineInvariant.PromoteKeeps | Engine miner/engine-miner-server/src/engine-miner-service.ts:782-831 | promotion keeps the invariant even when a lookup throws in the middle of the loop |
| EngineRuns.StepKeeps | Engine miner/engine-miner-server/src/engine-miner-service.ts:268-657 | every request, answered or thrown, keeps the invariant and the books and loses nothing recorded |
| EngineRuns.RunKeeps | Engine miner/engine-miner-server/src/engine-miner-service.ts:268-657 | the same over runs of any length |
| EngineTheorems.ServedInOrder | Engine miner/engine-miner-server/src/engine-miner-service.ts:782-831 | in every reachable state the queue is failed candidates, then at most one holder, then waiting ones; nobody in it has paid, and there is a holder exactly while a reservation is open |
| EngineTheorems.PlacesAreKept | Engine miner/engine-miner-server/src/engine-miner-service.ts:341-382 | while a round lasts, queue positions never change, nobody gets a second reservation and failures are final |
| EngineTheorems.AnswersAreTruthful | Engine miner/engine-miner-server/src/engine-miner-service.ts:386-403 | a queued answer gives the miner's true place, status, reservation and deadline in the round it answered, or the failure with which that round ended; it waits only behind a holder, is underfunded only on a balance below the fee, and is shown tokens exactly when it holds the reservation |
| EngineTheorems.OnlyPaymentsWin | Engine miner/engine-miner-server/src/engine-miner-service.ts:481-580 | a request wins a reward exactly if it is a payment that passes the ownership, network and address checks after a reconciliation that goes through, meets its own active round in time and counts; it wins that one reward, and no submitted answer ever wins one |
| EngineTheorems.WinnerIsHolder | Engine miner/engine-miner-server/src/engine-miner-service.ts:518-577 | a request that wins in the sense of OnlyPaymentsWin is a payment by the candidate that holds the reservation after the first reconciliation; that candidate's submission wins, its miner is the winner, the answer is payment_accepted and the round is gone |
| EngineTheorems.OnePendingReward | Engine miner/engine-miner-server/src/engine-miner-service.ts:811-828 | at most one reward of the service is pending, exactly while the active round has a reservation |
| EngineTheorems.IndexAgreesWithScan | Engine miner/engine-miner-server/src/engine-miner-service.ts:696-702 | the reservation index finds exactly the reward a scan would find |
| EngineTheorems.DefensiveBranchesAreDead | Engine miner/engine-miner-server/src/engine-miner-service.ts:530-533 | "no longer active", the closed-round answer and the missing candidate are never reached |
| EngineTheorems.RepairIsDead | Engine miner/engine-miner-server/src/engine-miner-service.ts:841-842 | from every state in which a request starts a reconciliation, first or second, the open reservation has a pending reward, so the branch that forgets a reservation without timing it out is never taken |
| EnginePasses.FirstPassDecides | Engine miner/engine-miner-server/src/engine-miner-service.ts:268-657 | a request whose first reconciliation throws ends there with that error, and a request without one leaves the state alone unless it registers, stops or submits a claim |
| EnginePasses.SecondPassIsLast | Engine miner/engine-miner-server/src/engine-miner-service.ts:314-557 | a second reconciliation is the last thing a request does, and its readings are looked at in no other case |
| EnginePasses.AfterFirstPass | Engine miner/engine-miner-server/src/engine-miner-service.ts:301-557 | whatever a request does after its first reconciliation, the round only moves on |
| EngineReservations.HolderIsKept | Engine miner/engine-miner-server/src/engine-miner-service.ts:839-849 | a reconciliation whose clock is before the payment deadline of the open reservation changes nothing at all |
| EngineReservations.HolderTimesOut | Engine miner/engine-miner-server/src/engine-miner-service.ts:843-845 | one whose clock is at the deadline or later expires the reward and times the holder out, whatever else it does |
| EngineReservations.ReservationIsGranted | Engine miner/engine-miner-server/src/engine-miner-service.ts:782-831 | a reconciliation opens a reservation exactly if none is open or the open one is overdue, and somebody waiting can pay before anybody whose balance could not be read |
| EngineReservations.FirstAbleIsGranted | Engine miner/engine-miner-server/src/engine-miner-service.ts:782-831 | that candidate then holds it: pending reward for the registered address, payment window from the clock reading on, and the balance that was read |
| EngineReservations.UnableAreRecorded | Engine miner/engine-miner-server/src/engine-miner-service.ts:788-800 | whoever is passed over as underfunded had a balance below the fee, which is recorded |
| EngineReservations.PassFailsOnLookup | Engine miner/engine-miner-server/src/engine-miner-service.ts:787-800 | a reconciliation fails exactly if it reaches a waiting candidate whose balance could not be read |
| EngineReservations.RoundIsDropped | Engine miner/engine-miner-server/src/engine-miner-service.ts:852-855 | a round is dropped exactly if it has expired and everybody in it has failed |
| EnginePayments.WinsIffPays | Engine miner/engine-miner-server/src/engine-miner-service.ts:481-580 | a request wins exactly if it is a payment by the reservation's owner with the registered particulars, in time, and the lookup is a local run or finds an output of at least the fee to the configured treasury |
| EnginePayments.PaymentWins | Engine miner/engine-miner-server/src/engine-miner-service.ts:564-591 | such a payment makes the reward claimable with its transaction, time and provider, credits the miner and ends the round |
| EnginePayments.PaymentFails | Engine miner/engine-miner-server/src/engine-miner-service.ts:535-562 | a payment that is late finds the reservation expired, one whose lookup finds no such output is rejected; both end it unpaid |
| EnginePayments.UndecidedThrows | Engine miner/engine-miner-server/src/engine-miner-service.ts:737-760 | a lookup that throws, or finds a transaction without a configured treasury, throws and leaves the reservation open |
| EnginePayments.StrangersAreRefused | Engine miner/engine-miner-server/src/engine-miner-service.ts:489-504 | somebody else's payment, or one with another network, address or address type, is refused and changes nothing |
| EnginePayments.SettledIsRepeated | Engine miner/engine-miner-server/src/engine-miner-service.ts:506-528 | a payment for a reward no longer pending changes nothing more: expired is reported as expired, and an accepted one repeats its stored transaction, provider and time |
| EnginePayments.ReservationStays | Engine miner/engine-miner-server/src/engine-miner-service.ts:833-856 | a request that neither reads a clock past the deadline nor settles the reservation leaves it open at its place |
| EnginePayments.ReservationEnds | Engine miner/engine-miner-server/src/engine-miner-service.ts:518-591 | one that does ends it: claimable if the payment won, expired otherwise |
| EnginePayments.ReservationOutlasts | Engine miner/engine-miner-server/src/engine-miner-service.ts:481-856 | over any run a reservation is still open exactly if no request of the run read a clock past its deadline or settled it |
| EngineAttempts.AnswerAgain | Engine miner/engine-miner-server/src/engine-miner-service.ts:341-352 | a second answer in time gets attempt_limit_reached, whatever it is |
| EngineAttempts.WrongAnswer | Engine miner/engine-miner-server/src/engine-miner-service.ts:354-369 | a first wrong answer takes the attempt, is noted on the miner and does not join the queue |
| EngineAttempts.RightAnswer | Engine miner/engine-miner-server/src/engine-miner-service.ts:354-404 | a first right answer takes the attempt and joins the end of the queue |
| EngineAttempts.AnswerTooLate | Engine miner/engine-miner-server/src/engine-miner-service.ts:314-326 | a late answer takes no attempt |
| EngineAttempts.AttemptIsTaken | Engine miner/engine-miner-server/src/engine-miner-service.ts:341-404 | an answer found valid or invalid is the miner's first in the round, leaves it on the list and names its submission; it is valid exactly if it is right |
| EngineAttempts.OneAttemptPerRound | Engine miner/engine-miner-server/src/engine-miner-service.ts:341-357 | over any run a miner gets at most one valid or invalid answer per round, and every later one in time gets attempt_limit_reached |
| EngineReplies.IdentityIsKept | Engine miner/engine-miner-server/src/engine-miner-service.ts:236-256 | what a miner registered with never changes |
| EngineReplies.ReceiptSays | Engine miner/engine-miner-server/src/engine-miner-service.ts:436-479 | everything on an answered receipt, from the request and the rewards before it, and that only the listed rewards are issued |
| EngineReplies.ReceiptRefused | Engine miner/engine-miner-server/src/engine-miner-service.ts:436-470 | why a receipt is refused: unknown miner, the first unusable claim, or signing |
| EngineReplies.ClaimSubmission | Engine miner/engine-miner-server/src/engine-miner-service.ts:615-657 | every outcome of a submitted claim, by identifiers, receipt, earlier settlement, genuineness and provider |
| EngineReplies.ClaimStatusOverTime | Engine miner/engine-miner-server/src/engine-miner-service.ts:593-613 | in every reachable state the reported transaction is the settlement's for a submitted claim and present exactly for a won reward |
| EngineReplies.StatusSays | Engine miner/engine-miner-server/src/engine-miner-service.ts:406-423 | a status shows the miner's record and 1000 tokens per own claimable reward |
| EngineTheorems.RewardsAreConserved | Engine miner/engine-miner-server/src/engine-miner-service.ts:564-580 | tokens are 1000 per win, wins are counted once, a round is won once, and all tokens fit the finished rounds |
| EngineTheorems.ReceiptsBalance | Engine miner/engine-miner-server/src/engine-miner-service.ts:436-479 | no round on two receipts; receipts plus claimable rewards are at least the tokens won, and equal exactly when no receipt repeats a round |
| EngineTheorems.ReceiptRepeatsWhenRequestDoes | Engine miner/engine-miner-server/src/engine-miner-service.ts:439-465 | a receipt is for 1000 per listed claim and repeats a round exactly when the request repeats a claim |
| EngineTheorems.BalanceIffNoListRepeats | Engine miner/engine-miner-server/src/engine-miner-service.ts:436-479 | the books balance at the end of a run exactly when no request that could be issued when it came lists a claim twice |
| EngineTheorems.IssuedIffIssuable | Engine miner/engine-miner-server/src/engine-miner-service.ts:436-479 | a receipt request is answered exactly when the reconciliation goes through, the miner is known, all listed rewards were already its own and claimable, and signing succeeds |
| EngineTheorems.BalanceCanFail | Engine miner/engine-miner-server/src/engine-miner-service.ts:439-453 | a concrete run of five requests after which receipts promise more than was won |
| EngineTheorems.RewardsOnlyAdvance | Engine miner/engine-miner-server/src/engine-miner-service.ts:472-591 | over any run a reward's status only moves forward and its settled fields never change |
| EngineTheorems.AcceptedOnceForAll | Engine miner/engine-miner-server/src/engine-miner-service.ts:506-516 | all accepted answers for one reservation are the same, however far apart and whatever the later request carries |
| EngineTheorems.SubmittedOnceForAll | Engine miner/engine-miner-server/src/engine-miner-service.ts:618-628 | a submitted claim answers every later submission with the first settlement and changes nothing |
| EngineTheorems.SubmissionsMatchReceipts | Engine miner/engine-miner-server/src/engine-miner-service.ts:630-647 | a failing provider leaves no trace; a receipt is submitted exactly when a settlement with its txid is on file |
| EngineTermination.PassProgress | Engine miner/engine-miner-server/src/engine-miner-service.ts:833-856 | a reconciliation past expiry and deadline with lookups answering strictly shrinks what is left to do |
| EngineTermination.ExpiredRoundEnds | Engine miner/engine-miner-server/src/engine-miner-service.ts:833-856 | with k waiting candidates, k + 1 such reconciliations in a row drop the round |
| EngineTermination.LateStep | Engine miner/engine-miner-server/src/engine-miner-service.ts:296-657 | after expiry no request leaves more candidates waiting, and one whose first reconciliation sees the deadline pass and its lookups answered leaves fewer or drops the round |
| EngineTermination.ExpiredRoundEndsInRun | Engine miner/engine-miner-server/src/engine-miner-service.ts:296-657 | after expiry with k waiting candidates, every run with k + 1 such requests, whatever comes in between, ends without the round |
| EngineTermination.NobodyJoinsExpired | Engine miner/engine-miner-server/src/engine-miner-service.ts:314-326 | an answer after expiry never lengthens the queue |
| DieselSchedule.RewardSteps | alkanes/alkanes-std-genesis-alkane/src/lib.rs:67-69 | the reward is constant within 210000 blocks and halves, rounded down, between them |
| DieselSchedule.SumWithAhead | alkanes/alkanes-std-genesis-alkane/src/lib.rs:66-78 | the rewards so far and a bound on those to come stay within the cap, and miss it by at most the halving remainders |
| DieselSchedule.ScheduleBelowCap | alkanes/alkanes-std-genesis-alkane/src/lib.rs:66-78 | the rewards from genesis to any height are strictly below max_supply |
| DieselSchedule.PremineCovered | alkanes/alkanes-std-genesis-alkane/src/chain.rs:21-27 | the premine is within the schedule including its height exactly up to height 880002 |
| DieselSchedule.PremineCoveredBefore | alkanes/alkanes-std-genesis-alkane/src/chain.rs:21-27 | the premine is within the schedule before its height exactly up to height 880000 |
| DieselLegacy.Contract.ObserveMint | alkanes/alkanes-std-genesis-alkane/src/lib.rs:175-187 | a height is recorded, and refused if it was before |
| DieselLegacy.Contract.RunInitialize | alkanes/alkanes-std-genesis-alkane/src/lib.rs:210-224 | the checks of initialization in order, with its checked arithmetic, and the parcel it answers with |
| DieselLegacy.Contract.RunMint | alkanes/alkanes-std-genesis-alkane/src/lib.rs:190-233 | one mint per height, the cap test before the unchecked addition, and the parcel it answers with |
| DieselLegacy.Contract.Execute | alkanes/alkanes-std-genesis-alkane/src/lib.rs:209-233 | storage and parcel of a call, with nothing written by a failing one |
| DieselLegacy.LegacySupply | alkanes/alkanes-std-genesis-alkane/src/lib.rs:190-224 | in every run from a genesis up to 880002 the supply is the premine plus the minted heights' rewards, within the schedule and under the cap, and a mint fails exactly at a used height |
| DieselLegacy.LateGenesisReachesCap | alkanes/alkanes-std-genesis-alkane/src/lib.rs:196-198 | minting every block after a later genesis ends in "total supply has been reached" |
| DieselLegacy.CapReachableIff | alkanes/alkanes-std-genesis-alkane/src/lib.rs:196-198 | that error can occur in some run exactly for a genesis after 880002 |
| DieselUpgraded.Contract.ObserveUpgradedMint | alkanes/alkanes-std-genesis-alkane-upgraded-eoa/src/lib.rs:216-228 | the first split mint of a height, and no other, credits the fee to pool and supply |
| DieselUpgraded.Contract.CreateMintTransfer | alkanes/alkanes-std-genesis-alkane-upgraded-eoa/src/lib.rs:231-245 | the legacy mint of the upgraded contract |
| DieselUpgraded.Contract.CreateUpgradedMintTransfer | alkanes/alkanes-std-genesis-alkane-upgraded-eoa/src/lib.rs:263-320 | the guards of a split mint in order, its fee, its share and the cap test between them |
| DieselUpgraded.Contract.BurnIncoming | alkanes/alkanes-std-genesis-alkane-upgraded-eoa/src/lib.rs:401-420 | the loop over transfers, its two errors, the parcel it returns and the supply it leaves |
| DieselUpgraded.Contract.Execute | alkanes/alkanes-std-genesis-alkane-upgraded-eoa/src/lib.rs:343-420 | storage and parcel of every opcode, with nothing written by a failing call |
| DieselRuns.BurnConserves | alkanes/alkanes-std-genesis-alkane-upgraded-eoa/src/lib.rs:404-417 | a burn takes the amount off supply and parcel once per own transfer, and fails only on a transfer below the amount when the supply covers the parcel |
| DieselRuns.SharesFit | alkanes/alkanes-std-genesis-alkane-upgraded-eoa/src/lib.rs:300-309 | fee and all shares fit the reward with less than one unit per mint left over |
| DieselRuns.EmissionPerHeight | alkanes/alkanes-std-genesis-alkane-upgraded-eoa/src/lib.rs:216-320 | in every run legacy and split mints never share a height, a height emits at most its reward, and full distribution leaves less dust than mints |
| DieselRuns.UpgradedSupply | alkanes/alkanes-std-genesis-alkane-upgraded-eoa/src/lib.rs:343-420 | in every run supply = circulation + pool, supply + burned = premine + emission <= premine + rewards, and supply < cap + one reward |
| DieselRuns.NeverOverflows | alkanes/alkanes-std-genesis-alkane-upgraded-eoa/src/lib.rs:188-245 | in every run no checked operation fails and the unchecked addition does not wrap |
| DieselRuns.BurnFailsOnlyOnAmount | alkanes/alkanes-std-genesis-alkane-upgraded-eoa/src/lib.rs:401-420 | in every run a burn fails exactly when an own transfer is below the amount |
| DieselCap.UpgradedCapReachable | alkanes/alkanes-std-genesis-alkane-upgraded-eoa/src/lib.rs:237-314 | after a genesis call later than height 900798 no funded run, whatever its blocks hold, meets "total supply has been reached"; after an earlier one some run does if every block holds a mint |
| DieselCap.UpgradedCapReachableIff | alkanes/alkanes-std-genesis-alkane-upgraded-eoa/src/lib.rs:237-314 | so that error can occur exactly for a genesis at height 900798 or before |
| DieselCap.PremineFillsCap | alkanes/alkanes-std-genesis-alkane-upgraded-eoa/src/lib.rs:68-84 | the fixed premine and all rewards after the genesis block reach max_supply exactly up to height 900798 |
| DieselMints.SplitMintPays | alkanes/alkanes-std-genesis-alkane-upgraded-eoa/src/lib.rs:263-320 | a split mint pays (reward - c) / mints rounded down, where c, added to the pool by the first one of a height only, is the largest part that is at most half the reward and at most the miner's earnings beyond it |
| DieselMints.MintOutcome | alkanes/alkanes-std-genesis-alkane-upgraded-eoa/src/lib.rs:231-320 | in every run, exactly which mint is answered and with what error the others fail |
| DieselMints.SplitHeight | alkanes/alkanes-std-genesis-alkane-upgraded-eoa/src/lib.rs:216-320 | in every run a height with split mints has emitted that part c and one mint's part per mint |
| DieselMints.PoolBalance | alkanes/alkanes-std-genesis-alkane-upgraded-eoa/src/lib.rs:216-228 | over every run, pool and collections together are the parts c of the heights with split mints, each once |
| DieselMints.BurnReturns | alkanes/alkanes-std-genesis-alkane-upgraded-eoa/src/lib.rs:404-417 | a burn hands every transfer back in its place, own ones less the amount |
| MerkleTree.CalcMerkleRoot | alkanes/alkanes-std-merkle-distributor/src/utils.rs:31-52 | the loop computes the sorted-pair fold |
| MerkleTree.LexLeIff | alkanes/alkanes-std-merkle-distributor/src/utils.rs:36-40 | the order that decides which string is hashed first is the lexicographic one, prefixes first |
| MerkleTree.FoldIffMeets | alkanes/alkanes-std-merkle-distributor/src/utils.rs:31-52 | a fold reaches the root exactly if it starts on a subtree's message or passes a leaf's message, and follows the siblings from there |
| MerkleTree.FoldSound | alkanes/alkanes-std-merkle-distributor/src/utils.rs:31-52 | every leaf is accepted with its sibling path; what else is accepted meets the tree on an inner node's message or on a leaf that spells a later step, which takes a 64-byte claim or such a leaf |
| MerkleTree.LengthsSuffice | alkanes/alkanes-std-merkle-distributor/src/utils.rs:31-52 | with 32-byte siblings and no 64-byte leaf, in the tree or claimed, exactly the leaves with their sibling paths are accepted |
| MerkleTree.SiblingLengthMatters | alkanes/alkanes-std-merkle-distributor/src/utils.rs:36-46 | without a check of sibling lengths a string that is neither a leaf nor 64 bytes long can reach the root of a tree without 64-byte leaves |
| MerkleDistributor.DecodeEncodedLeaf | alkanes/alkanes-std-merkle-distributor/src/utils.rs:12-16 | an encoded leaf decodes to its address and amount whatever bytes follow |
| MerkleDistributor.DecodesIff | alkanes/alkanes-std-merkle-distributor/src/utils.rs:12-16 | what decodes is exactly what begins with an encoded leaf of a text and a 128-bit amount |
| Utf8.ValidIff | alkanes/alkanes-std-merkle-distributor/src/utils.rs:14-14 | the accepted addresses are exactly the encodings of sequences of Unicode scalar values |
| MerkleDistributor.RootHalves | alkanes/alkanes-std-merkle-distributor/src/lib.rs:243-250 | exactly one pair of 128-bit halves stores a given root |
| MerkleDistributor.Contract.ValidateProof | alkanes/alkanes-std-merkle-distributor/src/lib.rs:107-116 | malformed root, wrong proof and expiry, in this order |
| MerkleDistributor.Contract.VerifyOutput | alkanes/alkanes-std-merkle-distributor/src/lib.rs:159-199 | every check in order, then the leaf is used up and its amount returned |
| MerkleDistributor.Contract.Execute | alkanes/alkanes-std-merkle-distributor/src/lib.rs:258-268 | storage and parcel of a claim, with nothing written by a failing one |
| MerkleDistributor.Contract.InitializeWith | alkanes/alkanes-std-merkle-distributor/src/lib.rs:224-256 | initialization happens once, fixes token, end height and root, and hands back the leftovers and the auth token |
| MerkleDistributor.LeftoversAre | alkanes/alkanes-std-merkle-distributor/src/lib.rs:201-220 | what comes back, counted: the amount is kept once per transfer of the token, and a transfer below the amount comes back 2^128 too large |
| MerkleDistributor.LeftoversRightIff | alkanes/alkanes-std-merkle-distributor/src/lib.rs:201-220 | what comes back is what came in less the amount exactly if amount times (transfers - 1) is 2^128 times the short transfers; for a token that fits 128 bits, exactly if the amount is zero or one single transfer covers it |
| MerkleDistributor.LeftoversCanBeWrong | alkanes/alkanes-std-merkle-distributor/src/lib.rs:201-256 | with two covering transfers the amount is kept twice, and a single short transfer is answered with almost 2^128 units |
| MerklePayout.PayoutBound | alkanes/alkanes-std-merkle-distributor/src/lib.rs:159-199 | over any run each used leaf is paid its amount once; the total is what the tree promises, less the unclaimed leaves, plus the used strings that are no leaves, of which there are some exactly when a paid claim strays |
| MerklePayout.OverdrawableIff | alkanes/alkanes-std-merkle-distributor/src/lib.rs:159-199 | some collision-free run is paid more than the tree promises exactly if there is a stray claim of a positive amount that is in time and to its own address |
| MerklePayout.MeasuredPayout | alkanes/alkanes-std-merkle-distributor/src/lib.rs:107-256 | a distributor initialized with a tree's root never pays more than the tree promises if siblings are 32 bytes long and no leaf, in the tree or claimed, has 64 |
| MerklePayout.OrdinaryPayout | alkanes/alkanes-std-merkle-distributor/src/lib.rs:159-199 | a run of ordinary claims, none of 64 bytes and none with a step spelled by a leaf, pays at most what the tree promises |
| MerklePayout.PayoutCanExceed | alkanes/alkanes-std-merkle-distributor/src/lib.rs:107-199 | for every hash and every encoded leaf whose address is not 32 or 44 bytes long there is a tree that promises nothing and pays the encoded amount, although neither a leaf nor the claim has 64 bytes |
| MerklePayout.ClaimOutcome | alkanes/alkanes-std-merkle-distributor/src/lib.rs:107-199 | after any run a claim pays exactly if it is in time, unpaid, decodable, its fold meets the tree and output 0 is its address; it pays the decoded amount, and an ordinary claim meets the tree exactly as a leaf with its sibling path |
| MerkleRuns.InitializedOnce | alkanes/alkanes-std-merkle-distributor/src/lib.rs:224-256 | over any mix of initializations and claims by anybody, at most one initialization succeeds, it fixes root, end height and token for good, and later ones fail without trace |
| MerkleRuns.LifePayout | alkanes/alkanes-std-merkle-distributor/src/lib.rs:159-268 | the exact payout total over such a mix |
| MerkleRuns.MeasuredLife | alkanes/alkanes-std-merkle-distributor/src/lib.rs:107-268 | with 32-byte siblings and no 64-byte leaf no such mix is paid more than the tree promises |
| ZcashParser.Cursor.ConsumeVarint | examples/analyze_block_407.rs:5-27 | the CompactSize reader over the cursor |
| ZcashParser.Cursor.ParseTransaction | src/zcash.rs:30-159 | result, failure and final position of the transaction parser for every version number |
| ZcashParser.Cursor.SkipAfterLockTime | src/zcash.rs:71-150 | which sections are skipped for which version |
| ZcashParser.Cursor.ParseZcashBlock | src/zcash.rs:188-258 | result, failure and final position of the block parser |
| ZcashRoundTrip.AtVarint | examples/analyze_block_407.rs:5-27 | every count below 2^64 reads back as printed |
| ZcashRoundTrip.LengthIsPrinted | src/zcash.rs:53-63 | a script length is only accepted as printed |
| ZcashRoundTrip.LongCountAccepted | examples/analyze_block_407.rs:9-25 | every count below 0xFD is also read from its three-byte spelling, which script lengths refuse |
| ZcashRoundTrip.TxRoundTrip | src/zcash.rs:30-159 | every laid-out transaction of versions 1 to 4, anywhere in a byte string, gives back its transparent part and is consumed exactly when it is of version 1 or 2 |
| ZcashUnflagged.UnflaggedRoundTrip | src/zcash.rs:30-159 | a transaction of version 3 or more without the Overwinter bit, with all sections, is read back and consumed, except that without binding signature 64 following bytes are swallowed |
| ZcashRoundTrip.BlockRoundTrip | src/zcash.rs:188-258 | every laid-out block gives back its header and its transactions up to and with the first Overwinter one, and the parser goes on in that one's unread tail; with none before the last the whole block comes back, consumed exactly when the last is none either |
| ZcashMisread.ComesBackIff | src/zcash.rs:188-258 | a laid-out block comes back exactly if the parser makes its later transactions of what is left from the first Overwinter one's tail on |
| ZcashMisread.NoJoinSplitsNoBlock | src/zcash.rs:39-121 | no block comes back whose first Overwinter transaction has the one-byte tail of a version 3 transaction without JoinSplits and is not the last |
| ZcashMisread.SpelledNextComesBack | src/zcash.rs:188-258 | a block with an Overwinter transaction before its last still comes back if that one's tail spells the last |
| ZcashMisread.Version5 | src/zcash.rs:19-63 | a version 5 transaction is read as if its inputs began at the branch identifier, so it only comes back with as many inputs as those bytes spell, and parsing fails without room for them |
| ZcashMisread.Nu5NeedsRoom | src/zcash.rs:19-63 | with the NU5 branch identifier that is 180 inputs, and parsing fails on fewer than 7389 bytes |
| ZcashPointer.FindDefaultTAddressOutput | src/zcash.rs:291-298 | the least transparent output, or none exactly when there is none |
| ZcashPointer.RequireTAddressOutput | src/zcash.rs:376-385 | succeeds exactly when some output is transparent |
| ZcashPointer.TAddressIff | src/zcash.rs:260-284 | transparent scripts are exactly the two standard forms with any 20 bytes of hash |
| ZcashPointer.ResolvePointerWithFallback | src/zcash.rs:316-370 | pointer, else refund pointer, else least transparent output, else nothing; nothing exactly when no output is transparent, and an in-range transparent output exactly if a pointer names one or one of the first 2^32 outputs is one |

## Left out

- Interleaved requests: each request is one atomic step, so two requests waiting at the same await are not modelled.
- EngineService.EngineMinerService.Register: registration challenges and their signature check are left out; a miner appears already verified.
- EngineService.EngineMinerService.SubmitClaim: comparing canonical receipts, signatures and derived addresses is one boolean of the signed claim.
- Candidate, reward, miner and receipt records are values that the maps and queues replace; the service shares no such record between two places.
- Reward expiry times, difficulty, puzzle texts and registration metadata, which no request ever reads back.
- Provider failover, payload normalisation and satoshi conversion.
- DieselUpgraded.Contract.Execute: host calls that fail on their own and the auth token's own contract are left out; ownership is an input.
- The read-only opcodes of both DIESEL contracts.
- Other networks' constants, and the upgraded contract without the caller check.
- The distributor's auth_cleanup, forward_incoming and donate.
- ZcashParser.Cursor.ParseZcashBlock: running out of memory on huge declared counts is not modelled.
- ZcashRoundTrip.TxRoundTrip: shielded tails are opaque bytes; version 5 transactions are the subject of ZcashMisread.Version5.
