// The engine-miner service as a transition function: one request at a time, each either answered
// or thrown, with everything the request wrote before it threw kept.
module EngineSpec {
  import opened Common
  import opened EngineTypes

  predicate IsWon(status: RewardStatus) {
    status == Claimable || status == ReceiptIssued
  }

  predicate IsFailed(status: CandidateStatus) {
    status == Underfunded || status == TimedOut || status == PaymentRejected
  }

  // A state together with the error, if any, that stops the request there.
  datatype Phase = Phase(state: State, failure: Option<Error>)

  // The position of the first candidate from i on with the given reservation, or the length of the queue.
  function IndexOfReservation(queue: seq<Candidate>, reservationId: Id, i: nat := 0): (k: nat)
    requires i <= |queue|
    ensures i <= k <= |queue|
    ensures k < |queue| ==> queue[k].reservationId == Some(reservationId)
    ensures forall j :: i <= j < k ==> queue[j].reservationId != Some(reservationId)
    decreases |queue| - i
  {
    if i == |queue| || queue[i].reservationId == Some(reservationId) then i
    else IndexOfReservation(queue, reservationId, i + 1)
  }

  function IndexOfSubmission(queue: seq<Candidate>, submissionId: Id, i: nat := 0): (k: nat)
    requires i <= |queue|
    ensures i <= k <= |queue|
    ensures k < |queue| ==> queue[k].submissionId == submissionId
    ensures forall j :: i <= j < k ==> queue[j].submissionId != submissionId
    decreases |queue| - i
  {
    if i == |queue| || queue[i].submissionId == submissionId then i
    else IndexOfSubmission(queue, submissionId, i + 1)
  }

  function WithStatus(queue: seq<Candidate>, reservationId: Id, status: CandidateStatus): (r: seq<Candidate>)
    ensures |r| == |queue|
  {
    var k := IndexOfReservation(queue, reservationId);
    if k < |queue| then queue[k := queue[k].(status := status)] else queue
  }

  function RewardByReservation(s: State, reservationId: Id): Option<Reward> {
    if reservationId !in s.reservations then None
    else if s.reservations[reservationId] !in s.rewards then None
    else Some(s.rewards[s.reservations[reservationId]])
  }

  // The reward ends unpaid and its candidate gets the status that says why.
  function Expire(s: State, reward: Reward, status: CandidateStatus): State
    requires s.active.Some?
  {
    var round := s.active.value;
    s.(rewards := s.rewards[reward.claimId := reward.(status := Expired)],
       active := Some(round.(currentReservationId := None,
                             candidates := WithStatus(round.candidates, reward.reservationId, status))))
  }

  // The scan for the next candidate that can pay, with the position where it stopped and the queue
  // as it left it. Funding answers are recorded on the way.
  datatype Scan =
    | Chosen(at: nat, queue: seq<Candidate>)
    | NoneEligible(at: nat, queue: seq<Candidate>)
    | ScanFailed(at: nat, queue: seq<Candidate>, error: Error)

  function Asked(c: Candidate, funding: Funding): Candidate {
    c.(fundingBalance := Some(funding.balanceSats), fundingProvider := Some(funding.provider))
  }

  function ScanQueue(queue: seq<Candidate>, i: nat, miners: set<Id>, fee: int, balances: map<Id, Funding>): (r: Scan)
    requires i <= |queue|
    ensures |r.queue| == |queue|
    ensures r.Chosen? ==> i <= r.at < |queue| && r.queue[r.at].minerId in miners && r.queue[r.at].minerId in balances
    decreases |queue| - i
  {
    if i == |queue| then NoneEligible(i, queue)
    else if queue[i].status != Queued then ScanQueue(queue, i + 1, miners, fee, balances)
    else if queue[i].minerId !in miners then ScanFailed(i, queue, UnknownMiner)
    else if queue[i].minerId !in balances then ScanFailed(i, queue, ProviderFailed)
    else
      var funding := balances[queue[i].minerId];
      var c := Asked(queue[i], funding);
      if funding.balanceSats < fee
      then ScanQueue(queue[i := c.(status := Underfunded)], i + 1, miners, fee, balances)
      else Chosen(i, queue[i := c])
  }

  function Reserve(c: Candidate, cfg: Config, p: Pass): Candidate {
    c.(status := ReservationActive, claimId := Some(p.claimId), reservationId := Some(p.reservationId),
       paymentDeadlineAt := Some(p.promoteAt + cfg.claimPaymentWindowMs))
  }

  function PendingReward(c: Candidate, miner: Miner, provider: Text, roundId: Id, cfg: Config, p: Pass): Reward {
    Reward(p.claimId, p.reservationId, roundId, miner.payoutAddress, ROUND_REWARD_TOKENS, PaymentPending,
           p.promoteAt + cfg.claimPaymentWindowMs, None, c.minerId, None, provider)
  }

  // What no phase of a reconciliation writes.
  predicate Untouched(s: State, t: State) {
    && t.miners == s.miners && t.receipts == s.receipts
    && t.submissions == s.submissions && t.roundCounter == s.roundCounter
  }

  // First phase of a reconciliation: an overdue reservation is timed out.
  function CheckDeadline(s: State, p: Pass): (t: State)
    ensures Untouched(s, t) && (t.active.Some? <==> s.active.Some?)
  {
    if s.active.None? || s.active.value.currentReservationId.None? then s
    else
      var round := s.active.value;
      var reward := RewardByReservation(s, round.currentReservationId.value);
      if reward.None? || reward.value.status != PaymentPending then
        s.(active := Some(round.(currentReservationId := None)))
      else if reward.value.paymentDeadlineAt <= p.deadlineCheck then Expire(s, reward.value, TimedOut)
      else s
  }

  // Second phase: with nobody holding a reservation, the first queued candidate that can pay gets one.
  function Promote(s: State, cfg: Config, p: Pass): (r: Phase)
    ensures Untouched(s, r.state) && (r.state.active.Some? <==> s.active.Some?)
  {
    if s.active.None? || s.active.value.currentReservationId.Some? || s.active.value.winnerMinerId.Some? then
      Phase(s, None)
    else
      var round := s.active.value;
      match ScanQueue(round.candidates, 0, s.miners.Keys, cfg.requiredClaimFeeSats, p.balances)
      case NoneEligible(_, queue) => Phase(s.(active := Some(round.(candidates := queue))), None)
      case ScanFailed(_, queue, error) => Phase(s.(active := Some(round.(candidates := queue))), Some(error))
      case Chosen(k, queue) =>
        var c := queue[k];
        var reward := PendingReward(c, s.miners[c.minerId], p.balances[c.minerId].provider, round.roundId, cfg, p);
        Phase(s.(rewards := s.rewards[p.claimId := reward],
                 reservations := s.reservations[p.reservationId := p.claimId],
                 active := Some(round.(candidates := queue[k := Reserve(c, cfg, p)],
                                       currentReservationId := Some(p.reservationId)))),
              None)
  }

  predicate HasQueued(queue: seq<Candidate>) {
    exists i :: 0 <= i < |queue| && queue[i].status == Queued
  }

  // Third phase: a won round, or an expired one with nobody left to try, is dropped.
  function Close(s: State, p: Pass): (t: State)
    ensures Untouched(s, t)
  {
    if s.active.None? then s
    else
      var round := s.active.value;
      if round.winnerMinerId.Some?
         || (round.expiresAt <= p.closeCheck && round.currentReservationId.None? && !HasQueued(round.candidates))
      then s.(active := None)
      else s
  }

  // The three phases in order; round is the round object as the caller that still holds it sees it.
  datatype Reconciled = Reconciled(state: State, round: Option<Round>, failure: Option<Error>)

  function Reconcile(s: State, cfg: Config, p: Pass): (r: Reconciled)
    ensures Untouched(s, r.state)
    ensures r.round.Some? <==> s.active.Some?
  {
    var promoted := Promote(CheckDeadline(s, p), cfg, p);
    if promoted.failure.Some? then Reconciled(promoted.state, promoted.state.active, promoted.failure)
    else Reconciled(Close(promoted.state, p), promoted.state.active, None)
  }

  function TemplateAnswer(roundNumber: nat): nat
    requires roundNumber > 0
  {
    (roundNumber - 1) % 3
  }

  function NewRound(s: State, cfg: Config, o: Opening): Round {
    Round(o.roundId, s.roundCounter + 1, o.createdAt + cfg.roundDurationMs, TemplateAnswer(s.roundCounter + 1),
          None, [], [], None)
  }

  // After a reconciliation that went through, some round is active.
  function EnsureRound(s: State, cfg: Config, p: Pass, o: Opening): (r: Phase)
    ensures r.failure.None? ==> r.state.active.Some?
    ensures r.state.miners == s.miners
  {
    var r := Reconcile(s, cfg, p);
    if r.failure.Some? then Phase(r.state, r.failure)
    else if r.state.active.Some? then Phase(r.state, None)
    else Phase(r.state.(roundCounter := r.state.roundCounter + 1, active := Some(NewRound(r.state, cfg, o))), None)
  }

  function SetMiner(s: State, minerId: Id, miner: Miner): State {
    s.(miners := s.miners[minerId := miner])
  }

  // A correct answer joins the end of the queue; any answer uses up the miner's attempt.
  function Attempt(s: State, minerId: Id, submissionId: Id): State
    requires minerId in s.miners && s.active.Some?
  {
    var round := s.active.value;
    s.(miners := s.miners[minerId := s.miners[minerId].(lastSubmissionId := Some(submissionId))],
       active := Some(round.(attempted := round.attempted + [minerId])))
  }

  function Enqueue(s: State, minerId: Id, submissionId: Id, receivedAt: Time): State
    requires s.active.Some?
  {
    var round := s.active.value;
    s.(active := Some(round.(candidates := round.candidates +
      [Candidate(minerId, submissionId, receivedAt, Queued, None, None, None, None, None)])))
  }

  function SolutionReply(round: Round, submissionId: Id): Reply {
    var k := IndexOfSubmission(round.candidates, submissionId);
    if k == |round.candidates| then Threw(UnknownSubmission)
    else
      var c := round.candidates[k];
      Returned(ValidAnswer(submissionId, c.status, c.reservationId, k + 1, c.paymentDeadlineAt,
        if c.status == ReservationActive || c.status == Paid then ROUND_REWARD_TOKENS else 0))
  }

  // What becomes of an answer, once a round is there to receive it.
  function AnswerRound(s: State, cfg: Config, r: Request): Result
    requires r.SubmitSolution? && s.active.Some? && r.minerId in s.miners
  {
    var round := s.active.value;
    var s1 := SetMiner(s, r.minerId, s.miners[r.minerId].(currentRoundId := Some(round.roundId)));
    if r.roundId != round.roundId then Result(s1, Returned(RoundMismatch(r.submissionId)))
    else if round.expiresAt <= r.expiryCheck then
      var again := Reconcile(s1, cfg, r.again);
      if again.failure.Some? then Result(again.state, Threw(again.failure.value))
      else Result(again.state, Returned(RoundExpired(r.submissionId)))
    else if round.winnerMinerId.Some? then Result(s1, Returned(RoundClosed(r.submissionId)))
    else if r.minerId in round.attempted then Result(s1, Returned(AttemptLimitReached(r.submissionId)))
    else
      var s2 := Attempt(s1, r.minerId, r.submissionId);
      if r.answer != round.expectedAnswer then Result(s2, Returned(InvalidAnswer(r.submissionId)))
      else
        var again := Reconcile(Enqueue(s2, r.minerId, r.submissionId, r.receivedAt), cfg, r.again);
        if again.failure.Some? then Result(again.state, Threw(again.failure.value))
        else Result(again.state, SolutionReply(again.round.value, r.submissionId))
  }

  function OnSubmitSolution(s: State, cfg: Config, r: Request): Result
    requires r.SubmitSolution?
  {
    if r.minerId !in s.miners then Result(s, Threw(UnknownMiner))
    else
      var e := EnsureRound(s, cfg, r.pass, r.opening);
      if e.failure.Some? then Result(e.state, Threw(e.failure.value)) else AnswerRound(e.state, cfg, r)
  }

  // The payment check: the error it throws, or whether the payment counts and who said so.
  function ValidatePayment(cfg: Config, lookup: TxLookup): Outcome<(bool, Text), Error> {
    match lookup
    case LookupThrows => Threw(ProviderFailed)
    case LocalDev(provider) => Returned((true, provider))
    case TxMissing(provider) => Returned((false, provider))
    case TxFound(provider, outputs) =>
      if cfg.treasury.None? then Threw(TreasuryMissing)
      else Returned((PaysTreasury(outputs, cfg.treasury.value, cfg.requiredClaimFeeSats), provider))
  }

  predicate PaysTreasury(outputs: seq<TxOutput>, treasury: Text, fee: int) {
    exists i :: 0 <= i < |outputs| && treasury in outputs[i].addresses && fee <= outputs[i].valueSats
  }

  // The reservation turns into the round's win.
  function Win(s: State, reward: Reward, txid: Text, provider: Text, now: Time): State
    requires reward.minerId in s.miners
  {
    var miner := s.miners[reward.minerId];
    s.(rewards := s.rewards[reward.claimId := reward.(status := Claimable, paymentTxid := Some(txid),
                                                      paymentAcceptedAt := Some(now), paymentProvider := provider)],
       miners := s.miners[reward.minerId := miner.(totalWins := miner.totalWins + 1,
                                                   totalRewards := miner.totalRewards + ROUND_REWARD_TOKENS)],
       active := None)
  }

  // A payment that wins the round: its reservation is still the active round's, in time, and the payment counts.
  predicate PaysOff(s: State, cfg: Config, r: Request, reward: Reward)
    requires r.SubmitClaimPayment?
  {
    && reward.status == PaymentPending
    && s.active.Some? && s.active.value.roundId == reward.roundId
    && r.deadlineCheck < reward.paymentDeadlineAt
    && ValidatePayment(cfg, r.lookup).Returned? && ValidatePayment(cfg, r.lookup).value.0
  }

  // The round as a request that still holds it sees it after the win.
  function WonRound(round: Round, reward: Reward): Round {
    round.(winnerMinerId := Some(reward.minerId), currentReservationId := None,
           candidates := WithStatus(round.candidates, reward.reservationId, Paid))
  }

  // The submission that won: the one that holds the reservation, or failing that the miner's last one.
  function WinningSubmission(round: Round, reward: Reward, miner: Miner): Option<Id> {
    var k := IndexOfReservation(round.candidates, reward.reservationId);
    if k < |round.candidates| then Some(round.candidates[k].submissionId) else miner.lastSubmissionId
  }

  function PaymentMismatch(miner: Miner, pay: Payment): Option<Error> {
    if pay.network.Some? && pay.network.value != miner.network then Some(NetworkMismatch)
    else if pay.fundingAddress != miner.fundingAddress then Some(FundingAddressMismatch)
    else if pay.addressType != miner.addressType then Some(AddressTypeMismatch)
    else None
  }

  function AfterExpiry(s: State, cfg: Config, again: Pass, response: Response): Result {
    var r := Reconcile(s, cfg, again);
    Result(r.state, if r.failure.Some? then Threw(r.failure.value) else Returned(response))
  }

  // A payment for a known reward, once the initial reconciliation and the ownership checks are through.
  function SettlePayment(s: State, cfg: Config, r: Request, reward: Reward): Result
    requires r.SubmitClaimPayment? && reward.minerId in s.miners
  {
    var pay := r.payment;
    if IsWon(reward.status) || reward.status == RewardSubmitted then
      Result(s, Returned(PaymentResult(Accepted, reward.claimId, reward.paymentTxid.GetOr(pay.txid),
                                       Some(reward.paymentProvider), reward.paymentAcceptedAt.GetOr(r.now))))
    else if reward.status == Expired then
      Result(s, Returned(PaymentResult(ReservationExpired, reward.claimId, pay.txid, pay.provider, r.now)))
    else if s.active.None? || s.active.value.roundId != reward.roundId then Result(s, Threw(ReservationInactive))
    else if reward.paymentDeadlineAt <= r.deadlineCheck then
      AfterExpiry(Expire(s, reward, TimedOut), cfg, r.again,
                  PaymentResult(ReservationExpired, reward.claimId, pay.txid, pay.provider, r.now))
    else
      match ValidatePayment(cfg, r.lookup)
      case Threw(error) => Result(s, Threw(error))
      case Returned((accepted, provider)) =>
        if !accepted then
          AfterExpiry(Expire(s, reward, PaymentRejected), cfg, r.again,
                      PaymentResult(Rejected, reward.claimId, pay.txid, Some(provider), r.now))
        else
          Result(Win(s, reward, pay.txid, provider, r.now),
                 Returned(PaymentResult(Accepted, reward.claimId, pay.txid, Some(provider), r.now)))
  }

  function OnSubmitClaimPayment(s: State, cfg: Config, r: Request): Result
    requires r.SubmitClaimPayment?
  {
    var pass := Reconcile(s, cfg, r.pass);
    var reward := RewardByReservation(pass.state, r.payment.reservationId);
    if pass.failure.Some? then Result(pass.state, Threw(pass.failure.value))
    else if reward.None? then Result(pass.state, Threw(UnknownReservation))
    else if reward.value.minerId != r.payment.minerId then Result(pass.state, Threw(NotReservationOwner))
    else if r.payment.minerId !in pass.state.miners then Result(pass.state, Threw(UnknownMiner))
    else
      var mismatch := PaymentMismatch(pass.state.miners[r.payment.minerId], r.payment);
      if mismatch.Some? then Result(pass.state, Threw(mismatch.value))
      else SettlePayment(pass.state, cfg, r, reward.value)
  }

  // The first listed claim that stops a receipt, if there is one.
  function ReceiptObstacle(s: State, minerId: Id, claimIds: seq<Id>, i: nat := 0): (e: Option<Error>)
    requires i <= |claimIds|
    ensures e.None? <==> forall j :: i <= j < |claimIds| ==>
      claimIds[j] in s.rewards
      && s.rewards[claimIds[j]].minerId == minerId && s.rewards[claimIds[j]].status == Claimable
    decreases |claimIds| - i
  {
    if i == |claimIds| then None
    else if claimIds[i] !in s.rewards || s.rewards[claimIds[i]].minerId != minerId then Some(RewardNotFound)
    else if s.rewards[claimIds[i]].status != Claimable then Some(RewardNotReady)
    else ReceiptObstacle(s, minerId, claimIds, i + 1)
  }

  function TokensOf(rewards: map<Id, Reward>, claimIds: seq<Id>, n: nat): nat
    requires n <= |claimIds| && forall i :: 0 <= i < n ==> claimIds[i] in rewards
  {
    if n == 0 then 0 else TokensOf(rewards, claimIds, n - 1) + rewards[claimIds[n - 1]].rewardTokens
  }

  function RoundsOf(rewards: map<Id, Reward>, claimIds: seq<Id>): (r: seq<Id>)
    requires forall i :: 0 <= i < |claimIds| ==> claimIds[i] in rewards
  {
    seq(|claimIds|, i requires 0 <= i < |claimIds| => rewards[claimIds[i]].roundId)
  }

  function MarkIssued(rewards: map<Id, Reward>, claimIds: seq<Id>): (r: map<Id, Reward>)
    ensures r.Keys == rewards.Keys
  {
    map c | c in rewards :: if c in claimIds then rewards[c].(status := ReceiptIssued) else rewards[c]
  }

  function OnRequestClaimReceipt(s: State, cfg: Config, r: Request): Result
    requires r.RequestClaimReceipt?
  {
    var pass := Reconcile(s, cfg, r.pass);
    var t := pass.state;
    if pass.failure.Some? then Result(t, Threw(pass.failure.value))
    else if r.minerId !in t.miners then Result(t, Threw(UnknownMiner))
    else
      var obstacle := ReceiptObstacle(t, r.minerId, r.claimIds);
      if obstacle.Some? then Result(t, Threw(obstacle.value))
      else if r.signature.None? then Result(t, Threw(SigningFailed))
      else
        var receipt := Receipt(r.receiptId, t.miners[r.minerId].payoutAddress,
                               TokensOf(t.rewards, r.claimIds, |r.claimIds|), RoundsOf(t.rewards, r.claimIds),
                               r.nonce, r.issuedAt, r.signature.value, Issued, None);
        Result(t.(rewards := MarkIssued(t.rewards, r.claimIds), receipts := t.receipts[r.receiptId := receipt]),
               Returned(ReceiptOf(receipt)))
  }

  // The checks on a signed claim; a claim already submitted skips the comparison of its contents.
  function ClaimObstacle(s: State, claim: SignedClaim): Option<Error> {
    if claim.claimId != claim.preparedClaimId || claim.claimId != claim.embeddedClaimId then Some(ClaimMismatch)
    else if claim.claimId !in s.receipts then Some(UnknownClaim)
    else if s.receipts[claim.claimId].status == Submitted then None
    else if !claim.genuine then Some(ClaimInvalid)
    else None
  }

  function OnSubmitClaim(s: State, claim: SignedClaim, settled: Option<Settlement>): Result {
    var obstacle := ClaimObstacle(s, claim);
    if obstacle.Some? then Result(s, Threw(obstacle.value))
    else if claim.claimId in s.submissions then
      Result(s, Returned(ClaimSubmitted(claim.claimId, s.submissions[claim.claimId])))
    else if settled.None? then Result(s, Threw(ProviderFailed))
    else
      var t := s.(submissions := s.submissions[claim.claimId := settled.value]);
      var receipts := if claim.claimId !in s.receipts then s.receipts
        else s.receipts[claim.claimId := s.receipts[claim.claimId].(status := Submitted,
                                                                    lastKnownTxid := Some(settled.value.txid))];
      Result(t.(receipts := receipts), Returned(ClaimSubmitted(claim.claimId, settled.value)))
  }

  function OnGetClaimStatus(s: State, claimId: Id): Reply {
    if claimId in s.receipts then Returned(ReceiptClaim(s.receipts[claimId].status, s.receipts[claimId].lastKnownTxid))
    else if claimId in s.rewards then Returned(RewardClaim(s.rewards[claimId].status, s.rewards[claimId].paymentTxid))
    else Threw(UnknownClaim)
  }

  // A round is made sure of and the miner pointed at it.
  function JoinRound(s: State, cfg: Config, minerId: Id, p: Pass, o: Opening): (r: Phase)
    requires minerId in s.miners
    ensures r.failure.None? ==> r.state.active.Some?
  {
    var e := EnsureRound(s, cfg, p, o);
    if e.failure.Some? then e
    else
      var miner := e.state.miners[minerId];
      Phase(SetMiner(e.state, minerId, miner.(currentRoundId := Some(e.state.active.value.roundId))), None)
  }

  function OnStartMining(s: State, cfg: Config, r: Request): Result
    requires r.StartMining?
  {
    if r.minerId !in s.miners then Result(s, Threw(UnknownMiner))
    else
      var started := SetMiner(s, r.minerId, s.miners[r.minerId].(mining := true));
      var j := JoinRound(started, cfg, r.minerId, r.pass, r.opening);
      Result(j.state, if j.failure.Some? then Threw(j.failure.value) else Returned(Done))
  }

  function OnGetCurrentRound(s: State, cfg: Config, r: Request): Result
    requires r.GetCurrentRound?
  {
    if r.minerId !in s.miners then Result(s, Threw(UnknownMiner))
    else
      var j := JoinRound(s, cfg, r.minerId, r.pass, r.opening);
      Result(j.state,
        if j.failure.Some? then Threw(j.failure.value)
        else
          var round := j.state.active.value;
          Returned(CurrentRound(round.roundId, round.roundNumber, round.expiresAt)))
  }

  function RewardsOf(rewards: map<Id, Reward>, minerId: Id): map<Id, Reward> {
    map c | c in rewards && rewards[c].minerId == minerId :: rewards[c]
  }

  function ClaimableOf(rewards: map<Id, Reward>, minerId: Id): map<Id, nat> {
    map c | c in rewards && rewards[c].minerId == minerId && rewards[c].status == Claimable :: rewards[c].rewardTokens
  }

  ghost function ClaimableTokens(rewards: map<Id, Reward>, minerId: Id): nat {
    Sum(ClaimableOf(rewards, minerId))
  }

  ghost function OnGetMinerStatus(s: State, cfg: Config, minerId: Id, p: Pass): Result {
    var pass := Reconcile(s, cfg, p);
    if pass.failure.Some? then Result(pass.state, Threw(pass.failure.value))
    else if minerId !in pass.state.miners then Result(pass.state, Threw(UnknownMiner))
    else Result(pass.state, Returned(MinerStatus(pass.state.miners[minerId],
                                                 ClaimableTokens(pass.state.rewards, minerId))))
  }

  function OnListClaimableRewards(s: State, cfg: Config, minerId: Id, p: Pass): Result {
    var pass := Reconcile(s, cfg, p);
    if pass.failure.Some? then Result(pass.state, Threw(pass.failure.value))
    else if minerId !in pass.state.miners then Result(pass.state, Threw(UnknownMiner))
    else Result(pass.state, Returned(Rewards(RewardsOf(pass.state.rewards, minerId))))
  }

  ghost function Step(s: State, cfg: Config, r: Request): Result {
    match r
    case Register(minerId, payout, funding, kind, network) =>
      Result(SetMiner(s, minerId, Miner(payout, funding, kind, network, false, 0, 0, None, None)), Returned(Done))
    case StopMining(minerId) =>
      if minerId !in s.miners then Result(s, Threw(UnknownMiner))
      else Result(SetMiner(s, minerId, s.miners[minerId].(mining := false, currentRoundId := None)), Returned(Done))
    case StartMining(_, _, _) => OnStartMining(s, cfg, r)
    case GetCurrentRound(_, _, _) => OnGetCurrentRound(s, cfg, r)
    case SubmitSolution(_, _, _, _, _, _, _, _, _) => OnSubmitSolution(s, cfg, r)
    case GetMinerStatus(minerId, p) => OnGetMinerStatus(s, cfg, minerId, p)
    case ListClaimableRewards(minerId, p) => OnListClaimableRewards(s, cfg, minerId, p)
    case RequestClaimReceipt(_, _, _, _, _, _, _) => OnRequestClaimReceipt(s, cfg, r)
    case SubmitClaimPayment(_, _, _, _, _, _) => OnSubmitClaimPayment(s, cfg, r)
    case GetClaimStatus(claimId) => Result(s, OnGetClaimStatus(s, claimId))
    case SubmitClaim(claim, settled) => OnSubmitClaim(s, claim, settled)
  }

  ghost function Run(s: State, cfg: Config, rs: seq<Request>): State
    decreases |rs|
  {
    if rs == [] then s else Run(Step(s, cfg, rs[0]).state, cfg, rs[1..])
  }
}
