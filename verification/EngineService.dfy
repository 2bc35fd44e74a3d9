// The service as the objects the program runs: a service whose fields the requests update in place and a
// round object that a request may still hold after the service has dropped it. Every method is proved
// against the transition functions of EngineSpec.
module EngineService {
  import opened Common
  import opened EngineTypes
  import opened EngineSpec
  import opened EngineInvariant
  import opened EngineRuns

  class ActiveRound {
    const roundId: Id
    const roundNumber: nat
    const expiresAt: Time
    const expectedAnswer: nat
    var winnerMinerId: Option<Id>
    var winnerSubmissionId: Option<Id>
    var attempted: seq<Id>
    var candidates: seq<Candidate>
    var currentReservationId: Option<Id>

    ghost function Value(): Round
      reads this
    {
      Round(roundId, roundNumber, expiresAt, expectedAnswer, winnerMinerId, attempted, candidates, currentReservationId)
    }

    constructor (roundId: Id, roundNumber: nat, expiresAt: Time, expectedAnswer: nat)
      ensures Value() == Round(roundId, roundNumber, expiresAt, expectedAnswer, None, [], [], None)
    {
      this.roundId, this.roundNumber := roundId, roundNumber;
      this.expiresAt, this.expectedAnswer := expiresAt, expectedAnswer;
      winnerMinerId, winnerSubmissionId, currentReservationId := None, None, None;
      attempted, candidates := [], [];
    }

    method FindByReservation(reservationId: Id) returns (k: nat)
      ensures k == IndexOfReservation(candidates, reservationId)
    {
      k := 0;
      while k < |candidates| && candidates[k].reservationId != Some(reservationId)
        invariant k <= |candidates|
        invariant IndexOfReservation(candidates, reservationId, k) == IndexOfReservation(candidates, reservationId)
      {
        k := k + 1;
      }
    }

    method FindBySubmission(submissionId: Id) returns (k: nat)
      ensures k == IndexOfSubmission(candidates, submissionId)
    {
      k := 0;
      while k < |candidates| && candidates[k].submissionId != submissionId
        invariant k <= |candidates|
        invariant IndexOfSubmission(candidates, submissionId, k) == IndexOfSubmission(candidates, submissionId)
      {
        k := k + 1;
      }
    }

    method SomebodyWaits() returns (b: bool)
      ensures b == HasQueued(candidates)
    {
      for i := 0 to |candidates|
        invariant forall j :: 0 <= j < i ==> candidates[j].status != Queued
      {
        if candidates[i].status == Queued {
          return true;
        }
      }
      return false;
    }
  }

  class EngineMinerService {
    const config: Config
    var miners: map<Id, Miner>
    var rewards: map<Id, Reward>
    var rewardReservations: map<Id, Id>
    var claimReceipts: map<Id, Receipt>
    var claimSubmissions: map<Id, Settlement>
    var roundCounter: nat
    var activeRound: ActiveRound?

    ghost function Snapshot(): State
      reads this, activeRound
    {
      State(miners, rewards, rewardReservations, claimReceipts, claimSubmissions, roundCounter,
            if activeRound == null then None else Some(activeRound.Value()))
    }

    constructor (config: Config)
      ensures this.config == config && Snapshot() == INITIAL && activeRound == null
    {
      this.config := config;
      miners, rewards, rewardReservations, claimReceipts, claimSubmissions := map[], map[], map[], map[], map[];
      roundCounter, activeRound := 0, null;
    }

    method GetRewardByReservationId(reservationId: Id) returns (r: Option<Reward>)
      ensures r == RewardByReservation(Snapshot(), reservationId)
    {
      if reservationId !in rewardReservations {
        return None;
      }
      var claimId := rewardReservations[reservationId];
      return if claimId in rewards then Some(rewards[claimId]) else None;
    }

    method ExpireReservation(round: ActiveRound, reward: Reward, nextStatus: CandidateStatus)
      requires round == activeRound
      modifies this`rewards, round
      ensures Snapshot() == Expire(old(Snapshot()), reward, nextStatus)
    {
      rewards := rewards[reward.claimId := reward.(status := Expired)];
      round.currentReservationId := None;
      var k := round.FindByReservation(reward.reservationId);
      if k < |round.candidates| {
        round.candidates := round.candidates[k := round.candidates[k].(status := nextStatus)];
      }
    }

    method PromoteNextEligibleCandidate(round: ActiveRound, p: Pass) returns (failure: Option<Error>)
      requires round == activeRound
      modifies this`rewards, this`rewardReservations, round
      ensures Phase(Snapshot(), failure) == Promote(old(Snapshot()), config, p)
    {
      if round.currentReservationId.Some? || round.winnerMinerId.Some? {
        return None;
      }
      ghost var start := round.candidates;
      var fee := config.requiredClaimFeeSats;
      for i := 0 to |round.candidates|
        invariant |round.candidates| == |start|
        invariant ScanQueue(round.candidates, i, miners.Keys, fee, p.balances)
               == ScanQueue(start, 0, miners.Keys, fee, p.balances)
        invariant round.Value() == old(round.Value()).(candidates := round.candidates)
        invariant rewards == old(rewards) && rewardReservations == old(rewardReservations)
      {
        ghost var queue := round.candidates;
        var candidate := round.candidates[i];
        if candidate.status != Queued {
          continue;
        }
        if candidate.minerId !in miners {
          return Some(UnknownMiner);
        }
        var miner := miners[candidate.minerId];
        if candidate.minerId !in p.balances {
          return Some(ProviderFailed);
        }
        var funding := p.balances[candidate.minerId];
        candidate := candidate.(fundingBalance := Some(funding.balanceSats), fundingProvider := Some(funding.provider));
        round.candidates := round.candidates[i := candidate];
        if funding.balanceSats < fee {
          round.candidates := round.candidates[i := candidate.(status := Underfunded)];
          assert round.candidates == queue[i := Asked(queue[i], funding).(status := Underfunded)];
          continue;
        }
        var paymentDeadlineAt := p.promoteAt + config.claimPaymentWindowMs;
        round.candidates := round.candidates[i := candidate.(
          status := ReservationActive, claimId := Some(p.claimId), reservationId := Some(p.reservationId),
          paymentDeadlineAt := Some(paymentDeadlineAt))];
        rewards := rewards[p.claimId := Reward(
          p.claimId, p.reservationId, round.roundId, miner.payoutAddress, ROUND_REWARD_TOKENS, PaymentPending,
          paymentDeadlineAt, None, candidate.minerId, None, funding.provider)];
        rewardReservations := rewardReservations[p.reservationId := p.claimId];
        round.currentReservationId := Some(p.reservationId);
        return None;
      }
      return None;
    }

    // The caller's round object, even one dropped here, ends up as the specification says.
    method ReconcileActiveRoundState(p: Pass) returns (failure: Option<Error>)
      modifies this`rewards, this`rewardReservations, this`activeRound, activeRound
      ensures activeRound == null || activeRound == old(activeRound)
      ensures var r := Reconcile(old(Snapshot()), config, p);
        && Snapshot() == r.state && failure == r.failure
        && (old(activeRound) != null ==> r.round == Some(old(activeRound).Value()))
    {
      var round := activeRound;
      if round == null {
        return None;
      }
      if round.currentReservationId.Some? {
        var reward := GetRewardByReservationId(round.currentReservationId.value);
        if reward.None? || reward.value.status != PaymentPending {
          round.currentReservationId := None;
        } else if reward.value.paymentDeadlineAt <= p.deadlineCheck {
          ExpireReservation(round, reward.value, TimedOut);
        }
      }
      assert Snapshot() == CheckDeadline(old(Snapshot()), p);
      failure := None;
      if round.currentReservationId.None? && round.winnerMinerId.None? {
        failure := PromoteNextEligibleCandidate(round, p);
        if failure.Some? {
          return;
        }
      }
      assert Phase(Snapshot(), None) == Promote(CheckDeadline(old(Snapshot()), p), config, p);
      var waiting := round.SomebodyWaits();
      if round.winnerMinerId.Some?
         || (round.expiresAt <= p.closeCheck && round.currentReservationId.None? && !waiting)
      {
        activeRound := null;
      }
    }

    method EnsureActiveRound(p: Pass, o: Opening) returns (failure: Option<Error>)
      modifies this`rewards, this`rewardReservations, this`activeRound, this`roundCounter, activeRound
      ensures activeRound == null || activeRound == old(activeRound) || fresh(activeRound)
      ensures failure.None? ==> activeRound != null
      ensures Phase(Snapshot(), failure) == EnsureRound(old(Snapshot()), config, p, o)
    {
      failure := ReconcileActiveRoundState(p);
      if failure.Some? || activeRound != null {
        return;
      }
      roundCounter := roundCounter + 1;
      activeRound := new ActiveRound(o.roundId, roundCounter, o.createdAt + config.roundDurationMs,
                                     (roundCounter - 1) % 3);
    }

    method StartMining(minerId: Id, p: Pass, o: Opening) returns (reply: Reply)
      modifies this, activeRound
      ensures Result(Snapshot(), reply) == Step(old(Snapshot()), config, Request.StartMining(minerId, p, o))
    {
      if minerId !in miners {
        return Threw(UnknownMiner);
      }
      miners := miners[minerId := miners[minerId].(mining := true)];
      var failure := EnsureActiveRound(p, o);
      if failure.Some? {
        return Threw(failure.value);
      }
      miners := miners[minerId := miners[minerId].(currentRoundId := Some(activeRound.roundId))];
      return Returned(Done);
    }

    method StopMining(minerId: Id) returns (reply: Reply)
      modifies this`miners
      ensures Result(Snapshot(), reply) == Step(old(Snapshot()), config, Request.StopMining(minerId))
    {
      if minerId !in miners {
        return Threw(UnknownMiner);
      }
      miners := miners[minerId := miners[minerId].(mining := false, currentRoundId := None)];
      return Returned(Done);
    }

    method GetCurrentRound(minerId: Id, p: Pass, o: Opening) returns (reply: Reply)
      modifies this, activeRound
      ensures Result(Snapshot(), reply) == Step(old(Snapshot()), config, Request.GetCurrentRound(minerId, p, o))
    {
      if minerId !in miners {
        return Threw(UnknownMiner);
      }
      var failure := EnsureActiveRound(p, o);
      if failure.Some? {
        return Threw(failure.value);
      }
      miners := miners[minerId := miners[minerId].(currentRoundId := Some(activeRound.roundId))];
      return Returned(CurrentRound(activeRound.roundId, activeRound.roundNumber, activeRound.expiresAt));
    }

    method SubmitSolution(r: Request) returns (reply: Reply)
      requires r.SubmitSolution?
      modifies this, activeRound
      ensures Result(Snapshot(), reply) == Step(old(Snapshot()), config, r)
    {
      if r.minerId !in miners {
        return Threw(UnknownMiner);
      }
      var failure := EnsureActiveRound(r.pass, r.opening);
      if failure.Some? {
        return Threw(failure.value);
      }
      reply := AnswerActiveRound(r);
    }

    // The rest of submitSolution, from the round it has been given on.
    method AnswerActiveRound(r: Request) returns (reply: Reply)
      requires r.SubmitSolution? && activeRound != null && r.minerId in miners
      modifies this, activeRound
      ensures Result(Snapshot(), reply) == AnswerRound(old(Snapshot()), config, r)
    {
      hide Reconcile, IndexOfSubmission;
      var failure;
      var round := activeRound;
      miners := miners[r.minerId := miners[r.minerId].(currentRoundId := Some(round.roundId))];
      if r.roundId != round.roundId {
        return Returned(RoundMismatch(r.submissionId));
      }
      if round.expiresAt <= r.expiryCheck {
        failure := ReconcileActiveRoundState(r.again);
        return if failure.Some? then Threw(failure.value) else Returned(RoundExpired(r.submissionId));
      }
      if round.winnerMinerId.Some? {
        return Returned(RoundClosed(r.submissionId));
      }
      if r.minerId in round.attempted {
        return Returned(AttemptLimitReached(r.submissionId));
      }
      miners := miners[r.minerId := miners[r.minerId].(lastSubmissionId := Some(r.submissionId))];
      round.attempted := round.attempted + [r.minerId];
      if r.answer != round.expectedAnswer {
        return Returned(InvalidAnswer(r.submissionId));
      }
      round.candidates := round.candidates +
        [Candidate(r.minerId, r.submissionId, r.receivedAt, Queued, None, None, None, None, None)];
      failure := ReconcileActiveRoundState(r.again);
      if failure.Some? {
        return Threw(failure.value);
      }
      // The service may have dropped the round by now; the request still reads it.
      var k := round.FindBySubmission(r.submissionId);
      if k == |round.candidates| {
        return Threw(UnknownSubmission);
      }
      var c := round.candidates[k];
      return Returned(ValidAnswer(r.submissionId, c.status, c.reservationId, k + 1, c.paymentDeadlineAt,
        if c.status == ReservationActive || c.status == Paid then ROUND_REWARD_TOKENS else 0));
    }

    method ClaimableRewardsOf(minerId: Id) returns (total: nat)
      ensures total == ClaimableTokens(rewards, minerId)
    {
      var left := rewards;
      total := 0;
      assert ClaimableTokens(rewards - rewards.Keys, minerId) == 0;
      while left != map[]
        invariant left.Keys <= rewards.Keys && left == map c | c in left :: rewards[c]
        invariant total == ClaimableTokens(rewards - left.Keys, minerId)
        decreases |left|
      {
        var c :| c in left;
        ClaimableAdds(rewards, left.Keys, c, minerId);
        if rewards[c].minerId == minerId && rewards[c].status == Claimable {
          total := total + rewards[c].rewardTokens;
        }
        left := left - {c};
      }
      assert rewards - left.Keys == rewards;
    }

    method GetMinerStatus(minerId: Id, p: Pass) returns (reply: Reply)
      modifies this, activeRound
      ensures Result(Snapshot(), reply) == Step(old(Snapshot()), config, Request.GetMinerStatus(minerId, p))
    {
      var failure := ReconcileActiveRoundState(p);
      if failure.Some? {
        return Threw(failure.value);
      }
      if minerId !in miners {
        return Threw(UnknownMiner);
      }
      var total := ClaimableRewardsOf(minerId);
      return Returned(MinerStatus(miners[minerId], total));
    }

    method ListClaimableRewards(minerId: Id, p: Pass) returns (reply: Reply)
      modifies this, activeRound
      ensures Result(Snapshot(), reply) == Step(old(Snapshot()), config, Request.ListClaimableRewards(minerId, p))
    {
      var failure := ReconcileActiveRoundState(p);
      if failure.Some? {
        return Threw(failure.value);
      }
      if minerId !in miners {
        return Threw(UnknownMiner);
      }
      return Returned(Rewards(map c | c in rewards && rewards[c].minerId == minerId :: rewards[c]));
    }

    method RequestClaimReceipt(r: Request) returns (reply: Reply)
      requires r.RequestClaimReceipt?
      modifies this, activeRound
      ensures Result(Snapshot(), reply) == Step(old(Snapshot()), config, r)
    {
      var failure := ReconcileActiveRoundState(r.pass);
      if failure.Some? {
        return Threw(failure.value);
      }
      if r.minerId !in miners {
        return Threw(UnknownMiner);
      }
      var obstacle, tokens, roundIds := CollectRewards(r.minerId, r.claimIds);
      if obstacle.Some? {
        return Threw(obstacle.value);
      }
      if r.signature.None? {
        return Threw(SigningFailed);
      }
      var receipt := Receipt(r.receiptId, miners[r.minerId].payoutAddress, tokens, roundIds, r.nonce, r.issuedAt,
                             r.signature.value, Issued, None);
      MarkReceiptIssued(r.claimIds);
      claimReceipts := claimReceipts[r.receiptId := receipt];
      return Returned(ReceiptOf(receipt));
    }

    method CollectRewards(minerId: Id, claimIds: seq<Id>)
      returns (obstacle: Option<Error>, tokens: nat, roundIds: seq<Id>)
      ensures obstacle == ReceiptObstacle(Snapshot(), minerId, claimIds)
      ensures obstacle.None? ==>
        tokens == TokensOf(rewards, claimIds, |claimIds|) && roundIds == RoundsOf(rewards, claimIds)
    {
      obstacle, tokens, roundIds := None, 0, [];
      for i := 0 to |claimIds|
        invariant ReceiptObstacle(Snapshot(), minerId, claimIds, i) == ReceiptObstacle(Snapshot(), minerId, claimIds)
        invariant forall j :: 0 <= j < i ==> claimIds[j] in rewards
        invariant tokens == TokensOf(rewards, claimIds, i)
        invariant |roundIds| == i && forall j :: 0 <= j < i ==> roundIds[j] == rewards[claimIds[j]].roundId
      {
        var claimId := claimIds[i];
        if claimId !in rewards || rewards[claimId].minerId != minerId {
          obstacle := Some(RewardNotFound);
          return;
        }
        if rewards[claimId].status != Claimable {
          obstacle := Some(RewardNotReady);
          return;
        }
        tokens := tokens + rewards[claimId].rewardTokens;
        roundIds := roundIds + [rewards[claimId].roundId];
      }
    }

    method MarkReceiptIssued(claimIds: seq<Id>)
      requires forall i :: 0 <= i < |claimIds| ==> claimIds[i] in rewards
      modifies this`rewards
      ensures rewards == MarkIssued(old(rewards), claimIds)
    {
      for i := 0 to |claimIds|
        invariant rewards == MarkIssued(old(rewards), claimIds[..i])
      {
        var claimId := claimIds[i];
        assert claimIds[..i + 1] == claimIds[..i] + [claimId];
        rewards := rewards[claimId := rewards[claimId].(status := ReceiptIssued)];
      }
      assert claimIds[..|claimIds|] == claimIds;
    }

    method ValidateClaimPayment(lookup: TxLookup) returns (r: Outcome<(bool, Text), Error>)
      ensures r == ValidatePayment(config, lookup)
    {
      match lookup
      case LookupThrows => return Threw(ProviderFailed);
      case LocalDev(provider) => return Returned((true, provider));
      case TxMissing(provider) => return Returned((false, provider));
      case TxFound(provider, outputs) =>
        if config.treasury.None? {
          return Threw(TreasuryMissing);
        }
        for i := 0 to |outputs|
          invariant forall j :: 0 <= j < i ==>
            !(config.treasury.value in outputs[j].addresses && config.requiredClaimFeeSats <= outputs[j].valueSats)
        {
          if config.treasury.value in outputs[i].addresses && config.requiredClaimFeeSats <= outputs[i].valueSats {
            return Returned((true, provider));
          }
        }
        return Returned((false, provider));
    }

    method SubmitClaimPayment(r: Request) returns (reply: Reply)
      requires r.SubmitClaimPayment?
      modifies this, activeRound
      ensures Result(Snapshot(), reply) == Step(old(Snapshot()), config, r)
    {
      var pay := r.payment;
      var failure := ReconcileActiveRoundState(r.pass);
      if failure.Some? {
        return Threw(failure.value);
      }
      var found := GetRewardByReservationId(pay.reservationId);
      if found.None? {
        return Threw(UnknownReservation);
      }
      var reward := found.value;
      if reward.minerId != pay.minerId {
        return Threw(NotReservationOwner);
      }
      if pay.minerId !in miners {
        return Threw(UnknownMiner);
      }
      var miner := miners[pay.minerId];
      if pay.network.Some? && pay.network.value != miner.network {
        return Threw(NetworkMismatch);
      }
      if pay.fundingAddress != miner.fundingAddress {
        return Threw(FundingAddressMismatch);
      }
      if pay.addressType != miner.addressType {
        return Threw(AddressTypeMismatch);
      }
      reply := SettleClaimPayment(r, reward);
    }

    // The writes of submitClaimPayment once the payment is accepted. The round that is dropped here is left won
    // for whoever still holds it.
    method RecordWin(round: ActiveRound, reward: Reward, txid: Text, provider: Text, now: Time)
      requires round == activeRound && reward.minerId in miners
      modifies this`rewards, this`miners, this`activeRound, round
      ensures Snapshot() == Win(old(Snapshot()), reward, txid, provider, now)
      ensures round.Value() == WonRound(old(round.Value()), reward)
      ensures round.winnerSubmissionId ==
        WinningSubmission(old(round.Value()), reward, old(miners[reward.minerId]))
    {
      rewards := rewards[reward.claimId := reward.(status := Claimable, paymentTxid := Some(txid),
                                                   paymentAcceptedAt := Some(now), paymentProvider := provider)];
      var miner := miners[reward.minerId];
      var k := round.FindByReservation(reward.reservationId);
      round.winnerMinerId := Some(reward.minerId);
      if k < |round.candidates| {
        round.candidates := round.candidates[k := round.candidates[k].(status := Paid)];
        round.winnerSubmissionId := Some(round.candidates[k].submissionId);
      } else {
        round.winnerSubmissionId := miner.lastSubmissionId;
      }
      round.currentReservationId := None;
      miners := miners[reward.minerId := miner.(totalWins := miner.totalWins + 1,
                                                totalRewards := miner.totalRewards + ROUND_REWARD_TOKENS)];
      activeRound := null;
    }

    // The rest of submitClaimPayment, from the first look at the reward's status on.
    method SettleClaimPayment(r: Request, reward: Reward) returns (reply: Reply)
      requires r.SubmitClaimPayment? && reward.minerId in miners
      modifies this, activeRound
      ensures Result(Snapshot(), reply) == SettlePayment(old(Snapshot()), config, r, reward)
      ensures PaysOff(old(Snapshot()), config, r, reward) ==>
        && old(activeRound) != null
        && old(activeRound).Value() == WonRound(old(activeRound.Value()), reward)
        && old(activeRound).winnerSubmissionId ==
             WinningSubmission(old(activeRound.Value()), reward, old(miners[reward.minerId]))
    {
      hide Reconcile, ValidatePayment, Expire, Win, WonRound, WinningSubmission;
      var pay := r.payment;
      if reward.status == Claimable || reward.status == ReceiptIssued || reward.status == RewardSubmitted {
        return Returned(PaymentResult(Accepted, reward.claimId, reward.paymentTxid.GetOr(pay.txid),
                                      Some(reward.paymentProvider), reward.paymentAcceptedAt.GetOr(r.now)));
      }
      if reward.status == Expired {
        return Returned(PaymentResult(ReservationExpired, reward.claimId, pay.txid, pay.provider, r.now));
      }
      var round := activeRound;
      if round == null || round.roundId != reward.roundId {
        return Threw(ReservationInactive);
      }
      if reward.paymentDeadlineAt <= r.deadlineCheck {
        ExpireReservation(round, reward, TimedOut);
        var failure := ReconcileActiveRoundState(r.again);
        return if failure.Some? then Threw(failure.value)
               else Returned(PaymentResult(ReservationExpired, reward.claimId, pay.txid, pay.provider, r.now));
      }
      var validation := ValidateClaimPayment(r.lookup);
      if validation.Threw? {
        return Threw(validation.error);
      }
      var (accepted, provider) := validation.value;
      if !accepted {
        ExpireReservation(round, reward, PaymentRejected);
        var failure := ReconcileActiveRoundState(r.again);
        return if failure.Some? then Threw(failure.value)
               else Returned(PaymentResult(Rejected, reward.claimId, pay.txid, Some(provider), r.now));
      }
      RecordWin(round, reward, pay.txid, provider, r.now);
      return Returned(PaymentResult(Accepted, reward.claimId, pay.txid, Some(provider), r.now));
    }

    method GetClaimStatus(claimId: Id) returns (reply: Reply)
      ensures Result(Snapshot(), reply) == Step(Snapshot(), config, Request.GetClaimStatus(claimId))
    {
      if claimId in claimReceipts {
        return Returned(ReceiptClaim(claimReceipts[claimId].status, claimReceipts[claimId].lastKnownTxid));
      }
      if claimId !in rewards {
        return Threw(UnknownClaim);
      }
      return Returned(RewardClaim(rewards[claimId].status, rewards[claimId].paymentTxid));
    }

    method SubmitClaim(claim: SignedClaim, settled: Option<Settlement>) returns (reply: Reply)
      modifies this`claimSubmissions, this`claimReceipts
      ensures Result(Snapshot(), reply) == Step(old(Snapshot()), config, Request.SubmitClaim(claim, settled))
    {
      if claim.claimId != claim.preparedClaimId || claim.claimId != claim.embeddedClaimId {
        return Threw(ClaimMismatch);
      }
      if claim.claimId !in claimReceipts {
        return Threw(UnknownClaim);
      }
      if claimReceipts[claim.claimId].status != Submitted && !claim.genuine {
        return Threw(ClaimInvalid);
      }
      if claim.claimId in claimSubmissions {
        return Returned(ClaimSubmitted(claim.claimId, claimSubmissions[claim.claimId]));
      }
      if settled.None? {
        return Threw(ProviderFailed);
      }
      claimSubmissions := claimSubmissions[claim.claimId := settled.value];
      if claim.claimId in claimReceipts {
        claimReceipts := claimReceipts[claim.claimId :=
          claimReceipts[claim.claimId].(status := Submitted, lastKnownTxid := Some(settled.value.txid))];
      }
      return Returned(ClaimSubmitted(claim.claimId, settled.value));
    }

    method Register(minerId: Id, payout: Text, funding: Text, kind: Text, network: Text) returns (reply: Reply)
      modifies this`miners
      ensures Result(Snapshot(), reply)
           == Step(old(Snapshot()), config, Request.Register(minerId, payout, funding, kind, network))
    {
      miners := miners[minerId := Miner(payout, funding, kind, network, false, 0, 0, None, None)];
      return Returned(Done);
    }

    // Any request, dispatched; the invariant of every reachable state is an object invariant.
    method Handle(r: Request) returns (reply: Reply)
      requires Inv(Snapshot()) && Books(Snapshot()) && Fresh(Snapshot(), r)
      modifies this, activeRound
      ensures Result(Snapshot(), reply) == Step(old(Snapshot()), config, r)
      ensures Kept(old(Snapshot()), Snapshot())
    {
      StepKeeps(Snapshot(), config, r);
      match r
      case Register(m, payout, funding, kind, network) => reply := Register(m, payout, funding, kind, network);
      case StartMining(m, p, o) => reply := StartMining(m, p, o);
      case StopMining(m) => reply := StopMining(m);
      case GetCurrentRound(m, p, o) => reply := GetCurrentRound(m, p, o);
      case SubmitSolution(_, _, _, _, _, _, _, _, _) => reply := SubmitSolution(r);
      case GetMinerStatus(m, p) => reply := GetMinerStatus(m, p);
      case ListClaimableRewards(m, p) => reply := ListClaimableRewards(m, p);
      case RequestClaimReceipt(_, _, _, _, _, _, _) => reply := RequestClaimReceipt(r);
      case SubmitClaimPayment(_, _, _, _, _, _) => reply := SubmitClaimPayment(r);
      case GetClaimStatus(c) => reply := GetClaimStatus(c);
      case SubmitClaim(claim, settled) => reply := SubmitClaim(claim, settled);
    }
  }

  // Counting one more reward adds its tokens exactly when it is this miner's and claimable.
  lemma ClaimableAdds(rewards: map<Id, Reward>, left: set<Id>, c: Id, minerId: Id)
    requires c in left && left <= rewards.Keys
    ensures ClaimableTokens(rewards - (left - {c}), minerId) == ClaimableTokens(rewards - left, minerId) +
      if rewards[c].minerId == minerId && rewards[c].status == Claimable then rewards[c].rewardTokens else 0
  {
    var before, after := ClaimableOf(rewards - left, minerId), ClaimableOf(rewards - (left - {c}), minerId);
    if rewards[c].minerId == minerId && rewards[c].status == Claimable {
      SumInsert(before, c, rewards[c].rewardTokens);
      assert after == before[c := rewards[c].rewardTokens];
    } else {
      assert after == before;
    }
  }
}
