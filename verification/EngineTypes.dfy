// The state of the engine-miner service, as values.
//
// Identifiers, addresses, transaction ids and provider names are strings that the service only
// compares, so they are modelled by numbers. A Pass collects what one run of the reconciliation
// routine reads from outside: three clock readings, the balance lookups that answer (a miner
// missing from the map is a lookup that throws) and the two identifiers it may draw.
module EngineTypes {
  import opened Common

  type Id = nat
  type Text = nat
  type Time = int

  const ROUND_REWARD_TOKENS := 1000

  datatype Config = Config(roundDurationMs: int, claimPaymentWindowMs: int, requiredClaimFeeSats: int,
                           treasury: Option<Text>)

  datatype Error =
    | UnknownMiner | ProviderFailed | UnknownReservation | NotReservationOwner | NetworkMismatch
    | FundingAddressMismatch | AddressTypeMismatch | ReservationInactive | TreasuryMissing
    | RewardNotFound | RewardNotReady | SigningFailed | UnknownClaim | ClaimMismatch
    | ClaimInvalid | UnknownSubmission

  datatype Miner = Miner(
    payoutAddress: Text, fundingAddress: Text, addressType: Text, network: Text,
    mining: bool, totalWins: nat, totalRewards: nat,
    currentRoundId: Option<Id>, lastSubmissionId: Option<Id>)

  datatype CandidateStatus = Queued | Underfunded | ReservationActive | PaymentRejected | TimedOut | Paid

  datatype Candidate = Candidate(
    minerId: Id, submissionId: Id, receivedAt: Time, status: CandidateStatus,
    fundingBalance: Option<int>, fundingProvider: Option<Text>,
    claimId: Option<Id>, reservationId: Option<Id>, paymentDeadlineAt: Option<Time>)

  datatype Round = Round(
    roundId: Id, roundNumber: nat, expiresAt: Time, expectedAnswer: nat,
    winnerMinerId: Option<Id>, attempted: seq<Id>, candidates: seq<Candidate>,
    currentReservationId: Option<Id>)

  datatype RewardStatus = PaymentPending | Claimable | ReceiptIssued | RewardSubmitted | Expired

  datatype Reward = Reward(
    claimId: Id, reservationId: Id, roundId: Id, payoutAddress: Text, rewardTokens: nat,
    status: RewardStatus, paymentDeadlineAt: Time, paymentTxid: Option<Text>, minerId: Id,
    paymentAcceptedAt: Option<Time>, paymentProvider: Text)

  datatype ReceiptStatus = Issued | Submitted

  datatype Receipt = Receipt(
    claimId: Id, payoutAddress: Text, rewardTokens: nat, roundIds: seq<Id>, nonce: Text,
    issuedAt: Time, signature: Text, status: ReceiptStatus, lastKnownTxid: Option<Text>)

  // What the settlement provider answers when it accepts a signed claim.
  datatype Settlement = Settlement(submissionId: Id, txid: Text, provider: Text, acceptedAt: Time)

  datatype State = State(
    miners: map<Id, Miner>, rewards: map<Id, Reward>, reservations: map<Id, Id>,
    receipts: map<Id, Receipt>, submissions: map<Id, Settlement>,
    roundCounter: nat, active: Option<Round>)

  const INITIAL := State(map[], map[], map[], map[], map[], 0, None)

  datatype Funding = Funding(balanceSats: int, provider: Text)

  datatype Pass = Pass(
    deadlineCheck: Time, balances: map<Id, Funding>, promoteAt: Time, closeCheck: Time,
    claimId: Id, reservationId: Id)

  // The identifier and creation time a newly opened round receives.
  datatype Opening = Opening(roundId: Id, createdAt: Time)

  datatype TxOutput = TxOutput(addresses: set<Text>, valueSats: int)

  // The transaction lookup of a claim payment.
  datatype TxLookup =
    | LookupThrows
    | LocalDev(provider: Text)
    | TxMissing(provider: Text)
    | TxFound(provider: Text, outputs: seq<TxOutput>)

  datatype Payment = Payment(
    reservationId: Id, minerId: Id, network: Option<Text>, fundingAddress: Text, addressType: Text,
    txid: Text, provider: Option<Text>)

  // A signed claim; genuine stands for the canonical-receipt, signature and address comparisons.
  datatype SignedClaim = SignedClaim(claimId: Id, preparedClaimId: Id, embeddedClaimId: Id, genuine: bool)

  datatype Request =
    | Register(minerId: Id, payoutAddress: Text, fundingAddress: Text, addressType: Text, network: Text)
    | StartMining(minerId: Id, pass: Pass, opening: Opening)
    | StopMining(minerId: Id)
    | GetCurrentRound(minerId: Id, pass: Pass, opening: Opening)
    | SubmitSolution(minerId: Id, roundId: Id, answer: nat, pass: Pass, opening: Opening, expiryCheck: Time,
                     submissionId: Id, receivedAt: Time, again: Pass)
    | GetMinerStatus(minerId: Id, pass: Pass)
    | ListClaimableRewards(minerId: Id, pass: Pass)
    | RequestClaimReceipt(minerId: Id, claimIds: seq<Id>, pass: Pass, receiptId: Id, nonce: Text, issuedAt: Time,
                          signature: Option<Text>)
    | SubmitClaimPayment(payment: Payment, pass: Pass, deadlineCheck: Time, lookup: TxLookup, again: Pass, now: Time)
    | GetClaimStatus(claimId: Id)
    | SubmitClaim(claim: SignedClaim, settled: Option<Settlement>)

  datatype PaymentVerdict = Accepted | Rejected | ReservationExpired

  datatype Response =
    | Done
    | CurrentRound(roundId: Id, roundNumber: nat, expiresAt: Time)
    | RoundMismatch(submissionId: Id) | RoundExpired(submissionId: Id) | RoundClosed(submissionId: Id)
    | AttemptLimitReached(submissionId: Id) | InvalidAnswer(submissionId: Id)
    | ValidAnswer(submissionId: Id, status: CandidateStatus, reservationId: Option<Id>, queuePosition: nat,
                  paymentDeadlineAt: Option<Time>, rewardTokens: nat)
    | MinerStatus(miner: Miner, claimableTokens: nat)
    | Rewards(rewards: map<Id, Reward>)
    | ReceiptOf(receipt: Receipt)
    | PaymentResult(verdict: PaymentVerdict, claimId: Id, txid: Text, provider: Option<Text>, acceptedAt: Time)
    | RewardClaim(rewardStatus: RewardStatus, lastTxid: Option<Text>)
    | ReceiptClaim(receiptStatus: ReceiptStatus, lastTxid: Option<Text>)
    | ClaimSubmitted(claimId: Id, settlement: Settlement)

  type Reply = Outcome<Response, Error>

  datatype Result = Result(state: State, reply: Reply)
}
