// Which payments win the round, what becomes of the others, and what ends a reservation over whole runs.
module EnginePayments {
  import opened Common
  import opened EngineTypes
  import opened EngineSpec
  import opened EngineInvariant
  import opened EngineRuns
  import opened EnginePasses
  import opened EngineTheorems
  import opened EngineReservations

  // A payment by the owner of the reservation, with the particulars it has registered.
  predicate ByOwner(s: State, pay: Payment, reward: Reward) {
    && reward.minerId == pay.minerId && reward.minerId in s.miners
    && var miner := s.miners[reward.minerId];
    && (pay.network.None? || pay.network.value == miner.network)
    && pay.fundingAddress == miner.fundingAddress
    && pay.addressType == miner.addressType
  }

  // A lookup by which a payment counts: a local run, or a transaction with an output of at least the fee to the
  // treasury.
  predicate Counts(cfg: Config, lookup: TxLookup) {
    match lookup
    case LocalDev(_) => true
    case TxFound(_, outputs) =>
      cfg.treasury.Some?
      && exists o :: o in outputs && cfg.treasury.value in o.addresses && o.valueSats >= cfg.requiredClaimFeeSats
    case _ => false
  }

  // A lookup by which a payment does not count: no transaction, or one without such an output.
  predicate Fails(cfg: Config, lookup: TxLookup) {
    match lookup
    case TxMissing(_) => true
    case TxFound(_, outputs) =>
      cfg.treasury.Some?
      && forall o :: o in outputs && cfg.treasury.value in o.addresses ==> o.valueSats < cfg.requiredClaimFeeSats
    case _ => false
  }

  // A payment that meets a pending reward after a first reconciliation that goes through.
  ghost predicate MeetsPending(s: State, cfg: Config, r: Request, t: State, k: nat, reward: Reward) {
    && Reachable(s, cfg) && Fresh(s, r) && r.SubmitClaimPayment?
    && Reconcile(s, cfg, r.pass).failure.None? && t == Reconcile(s, cfg, r.pass).state
    && Holds(t, k, reward) && r.payment.reservationId == reward.reservationId
  }

  lemma PendingIsMet(s: State, cfg: Config, r: Request) returns (k: nat, reward: Reward)
    requires Reachable(s, cfg) && Fresh(s, r) && r.SubmitClaimPayment?
    requires Reconcile(s, cfg, r.pass).failure.None?
    requires var found := RewardByReservation(Reconcile(s, cfg, r.pass).state, r.payment.reservationId);
      found.Some? && found.value.status == PaymentPending
    ensures MeetsPending(s, cfg, r, Reconcile(s, cfg, r.pass).state, k, reward)
    ensures RewardByReservation(Reconcile(s, cfg, r.pass).state, r.payment.reservationId) == Some(reward)
  {
    hide Inv, Books, Grows, Reconcile, Reconciles, RoundAdvances, Reachable;
    ReachableIsKept(s, cfg);
    FreshFirst(s, r);
    KeptByPass(s, cfg, r.pass);
    k, reward := PendingIsHeld(Reconcile(s, cfg, r.pass).state, r.payment.reservationId);
  }

  // Somebody else's payment, or one with other particulars, is refused and changes nothing more.
  lemma StrangersAreRefused(s: State, cfg: Config, r: Request, t: State, k: nat, reward: Reward)
    requires MeetsPending(s, cfg, r, t, k, reward) && !ByOwner(t, r.payment, reward)
    ensures Step(s, cfg, r).state == t
    ensures var miner := t.miners[reward.minerId];
      Step(s, cfg, r).reply == Threw(
        if r.payment.minerId != reward.minerId then NotReservationOwner
        else if r.payment.network.Some? && r.payment.network.value != miner.network then NetworkMismatch
        else if r.payment.fundingAddress != miner.fundingAddress then FundingAddressMismatch
        else AddressTypeMismatch)
  {
    hide Reachable, Fresh, Reconcile, SettlePayment;
  }

  // A payment whose lookup throws, or finds a transaction while no treasury is set, throws and leaves the
  // reservation open.
  lemma UndecidedThrows(s: State, cfg: Config, r: Request, t: State, k: nat, reward: Reward)
    requires MeetsPending(s, cfg, r, t, k, reward) && ByOwner(t, r.payment, reward)
    requires r.deadlineCheck < reward.paymentDeadlineAt
    requires !Counts(cfg, r.lookup) && !Fails(cfg, r.lookup)
    ensures Step(s, cfg, r) == Result(t, Threw(if r.lookup.LookupThrows? then ProviderFailed else TreasuryMissing))
  {
    hide Reachable, Fresh, Reconcile;
  }

  // A payment in time that counts turns the reservation into the round's win: the reward becomes claimable with
  // the payment's transaction, time and provider, the miner is credited, and the round is over.
  lemma PaymentWins(s: State, cfg: Config, r: Request, t: State, k: nat, reward: Reward)
    requires MeetsPending(s, cfg, r, t, k, reward) && ByOwner(t, r.payment, reward)
    requires r.deadlineCheck < reward.paymentDeadlineAt && Counts(cfg, r.lookup)
    ensures var after := Step(s, cfg, r).state;
      && after.rewards == t.rewards[reward.claimId :=
           reward.(status := Claimable, paymentTxid := Some(r.payment.txid), paymentAcceptedAt := Some(r.now),
                   paymentProvider := r.lookup.provider)]
      && after.active.None?
      && after.miners.Keys == t.miners.Keys
      && after.miners[reward.minerId].totalWins == t.miners[reward.minerId].totalWins + 1
      && after.miners[reward.minerId].totalRewards == t.miners[reward.minerId].totalRewards + 1000
      && forall m :: m in t.miners && m != reward.minerId ==> after.miners[m] == t.miners[m]
    ensures Step(s, cfg, r).reply ==
      Returned(PaymentResult(Accepted, reward.claimId, r.payment.txid, Some(r.lookup.provider), r.now))
  {
    hide Reachable, Fresh, Reconcile, PaysTreasury;
    PaysIffCounts(cfg, r.lookup);
  }

  lemma PaysIffCounts(cfg: Config, lookup: TxLookup)
    ensures var v := ValidatePayment(cfg, lookup);
      && (Counts(cfg, lookup) <==> v.Returned? && v.value.0)
      && (Fails(cfg, lookup) <==> v.Returned? && !v.value.0)
      && (v.Returned? ==> v.value.1 == ProviderOf(lookup))
  {
  }

  function ProviderOf(lookup: TxLookup): Text {
    if lookup.LookupThrows? then 0 else lookup.provider
  }

  // The candidate fails with the given status, and its reward ends unpaid.
  ghost predicate EndsUnpaid(t: State, after: State, k: nat, reward: Reward, status: CandidateStatus) {
    && reward.claimId in after.rewards && after.rewards[reward.claimId] == reward.(status := Expired)
    && (after.active.Some? && t.active.Some? && after.roundCounter == t.roundCounter ==>
          k < |after.active.value.candidates|
          && after.active.value.candidates[k].minerId == reward.minerId
          && after.active.value.candidates[k].status == status)
  }

  // A payment that does not count is rejected, and one that comes late finds the reservation expired; both end
  // the reservation unpaid, and the next candidate is looked for.
  lemma PaymentFails(s: State, cfg: Config, r: Request, t: State, k: nat, reward: Reward)
    requires MeetsPending(s, cfg, r, t, k, reward) && ByOwner(t, r.payment, reward)
    requires reward.paymentDeadlineAt <= r.deadlineCheck || Fails(cfg, r.lookup)
    ensures var late := reward.paymentDeadlineAt <= r.deadlineCheck;
      && EndsUnpaid(t, Step(s, cfg, r).state, k, reward, if late then TimedOut else PaymentRejected)
      && (Step(s, cfg, r).reply.Returned? ==>
            Step(s, cfg, r).reply.value ==
            PaymentResult(if late then ReservationExpired else Rejected, reward.claimId, r.payment.txid,
                          if late then r.payment.provider else Some(ProviderOf(r.lookup)), r.now))
  {
    hide Inv, Books, Grows, Reachable, Fresh, Reconcile, Reconciles, RoundAdvances, PaysTreasury, Expire;
    ReachableIsKept(s, cfg);
    FreshFirst(s, r);
    KeptByPass(s, cfg, r.pass);
    FreshAgain(s, r, t);
    PaysIffCounts(cfg, r.lookup);
    var status := if reward.paymentDeadlineAt <= r.deadlineCheck then TimedOut else PaymentRejected;
    var u := Expire(t, reward, status);
    assert Step(s, cfg, r).state == Reconcile(u, cfg, r.again).state;
    ExpiredStays(t, cfg, r.again, k, reward, status);
  }

  lemma FreshAgain(s: State, r: Request, t: State)
    requires r.SubmitClaimPayment? && Fresh(s, r) && Reconciles(s, t, r.pass)
    ensures FreshPass(t, r.again)
  {
    FreshStays(s, t, r.pass, r.again);
  }

  lemma ExpiredStays(t: State, cfg: Config, p: Pass, k: nat, reward: Reward, status: CandidateStatus)
    requires Inv(t) && Holds(t, k, reward) && FreshPass(t, p) && (status == TimedOut || status == PaymentRejected)
    ensures EndsUnpaid(t, Reconcile(Expire(t, reward, status), cfg, p).state, k, reward, status)
  {
    hide Inv, Promote, Close;
    var u := Expire(t, reward, status);
    assert CheckDeadline(u, p) == u;
    assert u.active.value.candidates == t.active.value.candidates[k := t.active.value.candidates[k].(status := status)];
    PromoteSpares(u, cfg, p, k);
    CloseSpares(Promote(u, cfg, p).state, p);
    CloseKeepsRound(Promote(u, cfg, p).state, p);
  }

  lemma CloseKeepsRound(s: State, p: Pass)
    ensures Close(s, p).active.Some? ==> Close(s, p).active == s.active
  {
  }

  // A payment for a reward that is no longer pending changes nothing more: an expired one is reported expired, and
  // a won one accepted, with the transaction, provider and time it was won with.
  lemma SettledIsRepeated(s: State, cfg: Config, r: Request, reward: Reward)
    requires Reachable(s, cfg) && Fresh(s, r) && r.SubmitClaimPayment? && Reconcile(s, cfg, r.pass).failure.None?
    requires RewardByReservation(Reconcile(s, cfg, r.pass).state, r.payment.reservationId) == Some(reward)
    requires reward.status != PaymentPending && ByOwner(Reconcile(s, cfg, r.pass).state, r.payment, reward)
    ensures Step(s, cfg, r).state == Reconcile(s, cfg, r.pass).state
    ensures reward.status == Expired ==>
      Step(s, cfg, r).reply ==
      Returned(PaymentResult(ReservationExpired, reward.claimId, r.payment.txid, r.payment.provider, r.now))
    ensures reward.status != Expired ==>
      && reward.status in {Claimable, ReceiptIssued} && reward.paymentTxid.Some? && reward.paymentAcceptedAt.Some?
      && Step(s, cfg, r).reply ==
           Returned(PaymentResult(Accepted, reward.claimId, reward.paymentTxid.value, Some(reward.paymentProvider),
                                  reward.paymentAcceptedAt.value))
  {
    hide Inv, Books, Reachable, Reconcile, Reconciles, Grows, RoundAdvances;
    ReachableIsKept(s, cfg);
    FreshFirst(s, r);
    KeptByPass(s, cfg, r.pass);
    var t := Reconcile(s, cfg, r.pass).state;
    RewardFiled(t, t.reservations[r.payment.reservationId]);
  }

  // Which requests win, in terms of the payment and of what the lookup found.
  lemma WinsIffPays(s: State, cfg: Config, r: Request)
    requires Reachable(s, cfg) && Fresh(s, r)
    ensures Won(Step(s, cfg, r).state.rewards) != Won(s.rewards) <==>
      && r.SubmitClaimPayment?
      && Reconcile(s, cfg, r.pass).failure.None?
      && var t := Reconcile(s, cfg, r.pass).state;
      && var found := RewardByReservation(t, r.payment.reservationId);
      && found.Some? && found.value.status == PaymentPending && ByOwner(t, r.payment, found.value)
      && r.deadlineCheck < found.value.paymentDeadlineAt
      && Counts(cfg, r.lookup)
  {
    hide Inv, Books, Reachable, Fresh, Reconcile, Step, Won, PaysTreasury, ValidatePayment, Counts;
    OnlyPaymentsWin(s, cfg, r);
    if r.SubmitClaimPayment? {
      PaysIffCounts(cfg, r.lookup);
      var t := Reconcile(s, cfg, r.pass).state;
      var found := RewardByReservation(t, r.payment.reservationId);
      if Reconcile(s, cfg, r.pass).failure.None? && found.Some? && found.value.status == PaymentPending {
        var k, reward := PendingIsMet(s, cfg, r);
      }
    }
  }

  // ---- What ends a reservation ----

  // A payment of the reservation itself that is late, or that counts or fails in time.
  ghost predicate SettledBy(s: State, cfg: Config, r: Request, reward: Reward) {
    && r.SubmitClaimPayment? && r.payment.reservationId == reward.reservationId && ByOwner(s, r.payment, reward)
    && (reward.paymentDeadlineAt <= r.deadlineCheck || Counts(cfg, r.lookup) || Fails(cfg, r.lookup))
  }

  // A clock that reads the deadline or later at the start of one of the request's reconciliations.
  ghost predicate Overdue(s: State, cfg: Config, r: Request, reward: Reward) {
    || (FirstPass(s, r).Some? && reward.paymentDeadlineAt <= FirstPass(s, r).value.pass.deadlineCheck)
    || (r.SubmitSolution? && SecondPass(s, cfg, r).Some? && reward.paymentDeadlineAt <= r.again.deadlineCheck)
  }

  lemma TouchHolds(s: State, k: nat, reward: Reward, m: Id, miner: Miner)
    requires Holds(s, k, reward)
    ensures Holds(SetMiner(s, m, miner), k, reward)
  {
  }

  lemma QueueHolds(s: State, k: nat, reward: Reward, m: Id, submissionId: Id, receivedAt: Time)
    requires Holds(s, k, reward) && m in s.miners
    ensures Holds(Attempt(s, m, submissionId), k, reward)
    ensures Holds(Enqueue(Attempt(s, m, submissionId), m, submissionId, receivedAt), k, reward)
  {
    var queue := s.active.value.candidates;
    var longer := Enqueue(Attempt(s, m, submissionId), m, submissionId, receivedAt).active.value.candidates;
    assert forall i :: 0 <= i < |queue| ==> longer[i] == queue[i];
  }

  lemma FirstKept(s: State, cfg: Config, r: Request, k: nat, reward: Reward)
    requires Inv(s) && Books(s) && Fresh(s, r) && Holds(s, k, reward) && FirstPass(s, r).Some?
    requires FirstPass(s, r).value.pass.deadlineCheck < reward.paymentDeadlineAt
    ensures var first := FirstPass(s, r).value;
      && Holds(first.state, k, reward)
      && Reconcile(first.state, cfg, first.pass) == Reconciled(first.state, first.state.active, None)
  {
    hide Inv, Books, Reconcile, Holds, Grows, RoundAdvances, Fresh;
    FirstPassKept(s, cfg, r);
    var first := FirstPass(s, r).value;
    if r.StartMining? {
      TouchHolds(s, k, reward, r.minerId, s.miners[r.minerId].(mining := true));
    }
    HolderIsKept(first.state, cfg, first.pass, k, reward);
  }

  lemma AnswerLeaves(s: State, cfg: Config, r: Request, k: nat, reward: Reward)
    requires r.SubmitSolution? && Inv(s) && Books(s) && Fresh(s, r) && Holds(s, k, reward) && r.minerId in s.miners
    requires r.pass.deadlineCheck < reward.paymentDeadlineAt
    ensures EnsureRound(s, cfg, r.pass, r.opening) == Phase(s, None)
    ensures SecondPass(s, cfg, r).Some? ==> Holds(SecondPass(s, cfg, r).value.state, k, reward)
    ensures SecondPass(s, cfg, r).None? ==> Holds(OnSubmitSolution(s, cfg, r).state, k, reward)
  {
    hide Inv, Books, Reconcile, Grows, RoundAdvances, Holds, RoundNames, SubmissionNames;
    FirstKept(s, cfg, r, k, reward);
    HasRound(s, k, reward);
    var round := s.active.value;
    var s1 := SetMiner(s, r.minerId, s.miners[r.minerId].(currentRoundId := Some(round.roundId)));
    TouchHolds(s, k, reward, r.minerId, s1.miners[r.minerId]);
    QueueHolds(s1, k, reward, r.minerId, r.submissionId, r.receivedAt);
  }

  lemma HasRound(s: State, k: nat, reward: Reward)
    requires Holds(s, k, reward)
    ensures s.active.Some? && reward.claimId in s.rewards && s.rewards[reward.claimId] == reward
    ensures reward.status == PaymentPending && reward.minerId in s.miners
    ensures RewardByReservation(s, reward.reservationId) == Some(reward)
  {
  }

  // Only its own payment touches the reservation of a round; others do not meet it.
  lemma PaymentLeaves(s: State, cfg: Config, r: Request, k: nat, reward: Reward)
    requires r.SubmitClaimPayment? && Inv(s) && Books(s) && Fresh(s, r) && Holds(s, k, reward) && Reachable(s, cfg)
    requires r.pass.deadlineCheck < reward.paymentDeadlineAt && !SettledBy(s, cfg, r, reward)
    ensures OnSubmitClaimPayment(s, cfg, r).state == s
  {
    hide Inv, Books, Reconcile, Reachable, Grows, RoundAdvances, Fresh, SettlePayment, Holds, Counts, Fails;
    FirstKept(s, cfg, r, k, reward);
    HasRound(s, k, reward);
    var found := RewardByReservation(s, r.payment.reservationId);
    if found.Some? && found.value.minerId in s.miners {
      if found.value.status == PaymentPending {
        var j, held := PendingIsMet(s, cfg, r);
        OneHolder(s, k, reward, j, held);
        if ByOwner(s, r.payment, reward) {
          UndecidedThrows(s, cfg, r, s, k, reward);
        } else {
          StrangersAreRefused(s, cfg, r, s, k, reward);
        }
      } else {
        SettledStays(s, cfg, r, found.value);
      }
    }
  }

  lemma OneHolder(s: State, k: nat, reward: Reward, j: nat, held: Reward)
    requires Inv(s) && Holds(s, k, reward) && Holds(s, j, held)
    ensures reward == held && k == j
  {
    hide Inv;
    SoleHolder(s, k, j);
  }

  lemma SettledStays(s: State, cfg: Config, r: Request, reward: Reward)
    requires r.SubmitClaimPayment? && reward.minerId in s.miners && reward.status != PaymentPending
    ensures SettlePayment(s, cfg, r, reward).state == s
  {
  }

  lemma ReceiptLeaves(s: State, cfg: Config, r: Request, k: nat, reward: Reward)
    requires r.RequestClaimReceipt? && Holds(s, k, reward)
    requires Reconcile(s, cfg, r.pass) == Reconciled(s, s.active, None)
    ensures Holds(OnRequestClaimReceipt(s, cfg, r).state, k, reward)
  {
    hide Reconcile, TokensOf, RoundsOf;
    HasRound(s, k, reward);
  }

  // A request that neither reads a time past the deadline nor settles the reservation leaves it as it is.
  lemma ReservationStays(s: State, cfg: Config, r: Request, k: nat, reward: Reward)
    requires Reachable(s, cfg) && Fresh(s, r) && Holds(s, k, reward)
    requires !Overdue(s, cfg, r, reward) && !SettledBy(s, cfg, r, reward)
    ensures Holds(Step(s, cfg, r).state, k, reward)
  {
    hide Inv, Books, Reconcile, Reachable, Grows, RoundAdvances, Fresh, Holds, OnSubmitSolution, OnSubmitClaimPayment;
    hide OnRequestClaimReceipt, SecondPass, SettledBy;
    ReachableIsKept(s, cfg);
    if FirstPass(s, r).Some? {
      FirstKept(s, cfg, r, k, reward);
    }
    HasRound(s, k, reward);
    match r
    case Register(m, payout, funding, kind, network) =>
      TouchHolds(s, k, reward, m, Miner(payout, funding, kind, network, false, 0, 0, None, None));
    case StopMining(m) =>
      if m in s.miners { TouchHolds(s, k, reward, m, s.miners[m].(mining := false, currentRoundId := None)); }
    case StartMining(m, p, o) => if m in s.miners { JoinLeaves(FirstPass(s, r).value.state, cfg, m, p, o, k, reward); }
    case GetCurrentRound(m, p, o) => if m in s.miners { JoinLeaves(s, cfg, m, p, o, k, reward); }
    case SubmitSolution(_, _, _, _, _, _, _, _, _) => AnswerStays(s, cfg, r, k, reward);
    case RequestClaimReceipt(_, _, _, _, _, _, _) => ReceiptLeaves(s, cfg, r, k, reward);
    case SubmitClaimPayment(_, _, _, _, _, _) => PaymentLeaves(s, cfg, r, k, reward);
    case SubmitClaim(claim, settled) => SubmitLeaves(s, claim, settled, k, reward);
    case _ =>
  }

  lemma SubmitLeaves(s: State, claim: SignedClaim, settled: Option<Settlement>, k: nat, reward: Reward)
    requires Holds(s, k, reward)
    ensures Holds(OnSubmitClaim(s, claim, settled).state, k, reward)
  {
  }

  lemma JoinLeaves(s: State, cfg: Config, m: Id, p: Pass, o: Opening, k: nat, reward: Reward)
    requires m in s.miners && Holds(s, k, reward) && Reconcile(s, cfg, p) == Reconciled(s, s.active, None)
    ensures Holds(JoinRound(s, cfg, m, p, o).state, k, reward)
  {
    hide Reconcile, Holds;
    HasRound(s, k, reward);
    TouchHolds(s, k, reward, m, s.miners[m].(currentRoundId := Some(s.active.value.roundId)));
  }

  lemma AnswerStays(s: State, cfg: Config, r: Request, k: nat, reward: Reward)
    requires r.SubmitSolution? && Inv(s) && Books(s) && Fresh(s, r) && Holds(s, k, reward)
    requires !Overdue(s, cfg, r, reward)
    ensures Holds(OnSubmitSolution(s, cfg, r).state, k, reward)
  {
    hide Inv, Books, Reconcile, Grows, RoundAdvances, Fresh, Holds, SecondPass;
    if r.minerId in s.miners {
      AnswerLeaves(s, cfg, r, k, reward);
      if SecondPass(s, cfg, r).Some? {
        SecondPassKept(s, cfg, r);
        SecondPassIsLast(s, cfg, r, r.again);
        SecondReads(s, cfg, r);
        HolderIsKept(SecondPass(s, cfg, r).value.state, cfg, r.again, k, reward);
      }
    }
  }

  lemma SecondReads(s: State, cfg: Config, r: Request)
    requires SecondPass(s, cfg, r).Some?
    ensures (r.SubmitSolution? || r.SubmitClaimPayment?) && SecondPass(s, cfg, r).value.pass == r.again
    ensures r.SubmitSolution? ==> r.minerId in s.miners
  {
    hide Reconcile, EnsureRound;
  }

  // A request that does ends it: the reward is claimable if the payment won, and expired otherwise.
  lemma ReservationEnds(s: State, cfg: Config, r: Request, k: nat, reward: Reward)
    requires Reachable(s, cfg) && Fresh(s, r) && Holds(s, k, reward)
    requires Overdue(s, cfg, r, reward) || SettledBy(s, cfg, r, reward)
    ensures var t := Step(s, cfg, r).state;
      && reward.claimId in t.rewards
      && t.rewards[reward.claimId].status ==
           if !Overdue(s, cfg, r, reward) && r.deadlineCheck < reward.paymentDeadlineAt && Counts(cfg, r.lookup)
           then Claimable else Expired
  {
    hide Inv, Books, Reconcile, Reachable, Grows, RoundAdvances, Fresh, Holds, Step, SecondPass, Counts, Fails;
    ReachableIsKept(s, cfg);
    if FirstPass(s, r).Some? && reward.paymentDeadlineAt <= FirstPass(s, r).value.pass.deadlineCheck {
      EndsAtFirst(s, cfg, r, k, reward);
    } else if Overdue(s, cfg, r, reward) {
      SecondReads(s, cfg, r);
      EndsAtSecond(s, cfg, r, k, reward);
    } else {
      FirstKept(s, cfg, r, k, reward);
      if r.deadlineCheck < reward.paymentDeadlineAt && Counts(cfg, r.lookup) {
        PaymentWins(s, cfg, r, s, k, reward);
      } else {
        PaymentFails(s, cfg, r, s, k, reward);
      }
    }
  }

  lemma EndsAtFirst(s: State, cfg: Config, r: Request, k: nat, reward: Reward)
    requires Inv(s) && Books(s) && Fresh(s, r) && Holds(s, k, reward) && FirstPass(s, r).Some?
    requires reward.paymentDeadlineAt <= FirstPass(s, r).value.pass.deadlineCheck
    ensures var t := Step(s, cfg, r).state; reward.claimId in t.rewards && t.rewards[reward.claimId].status == Expired
  {
    hide Inv, Books, Reconcile, RoundAdvances, Fresh, Holds, Step;
    var first := FirstPass(s, r).value;
    FirstPassKept(s, cfg, r);
    if r.StartMining? {
      TouchHolds(s, k, reward, r.minerId, s.miners[r.minerId].(mining := true));
    }
    HolderTimesOut(first.state, cfg, first.pass, k, reward);
    AfterFirstPass(s, cfg, r);
    var v := Reconcile(first.state, cfg, first.pass).state;
    assert Advances(v.rewards[reward.claimId], Step(s, cfg, r).state.rewards[reward.claimId]);
  }

  lemma EndsAtSecond(s: State, cfg: Config, r: Request, k: nat, reward: Reward)
    requires Inv(s) && Books(s) && Fresh(s, r) && Holds(s, k, reward)
    requires r.SubmitSolution? && SecondPass(s, cfg, r).Some? && reward.paymentDeadlineAt <= r.again.deadlineCheck
    requires r.minerId in s.miners && r.pass.deadlineCheck < reward.paymentDeadlineAt
    ensures var t := Step(s, cfg, r).state; reward.claimId in t.rewards && t.rewards[reward.claimId].status == Expired
  {
    hide Inv, Books, Reconcile, RoundAdvances, Grows, Holds, SecondPass, RoundNames, SubmissionNames;
    AnswerLeaves(s, cfg, r, k, reward);
    SecondPassKept(s, cfg, r);
    SecondPassIsLast(s, cfg, r, r.again);
    SecondReads(s, cfg, r);
    SecondFresh(s, cfg, r);
    HolderTimesOut(SecondPass(s, cfg, r).value.state, cfg, r.again, k, reward);
  }

  // ---- The same over runs ----

  ghost predicate SomeEnds(s: State, cfg: Config, rs: seq<Request>, reward: Reward)
    decreases |rs|
  {
    rs != []
    && (Overdue(s, cfg, rs[0], reward) || SettledBy(s, cfg, rs[0], reward)
        || SomeEnds(Step(s, cfg, rs[0]).state, cfg, rs[1..], reward))
  }

  // An open reservation is still open, at its place, at the end of a run exactly if no request of the run reads a
  // time past its deadline before a reconciliation, or settles it.
  lemma {:induction false} ReservationOutlasts(s: State, cfg: Config, rs: seq<Request>, k: nat, reward: Reward)
    requires Reachable(s, cfg) && FreshRun(s, cfg, rs) && Holds(s, k, reward)
    ensures Holds(Run(s, cfg, rs), k, reward) <==> !SomeEnds(s, cfg, rs, reward)
    decreases |rs|
  {
    hide Inv, Books, Reachable, Fresh, Step, Holds, Overdue, SettledBy, Grows, RoundAdvances;
    if rs != [] {
      var t := Step(s, cfg, rs[0]).state;
      ReachableStep(s, cfg, rs[0]);
      if Overdue(s, cfg, rs[0], reward) || SettledBy(s, cfg, rs[0], reward) {
        ReservationEnds(s, cfg, rs[0], k, reward);
        EndedForGood(t, cfg, rs[1..], k, reward);
      } else {
        ReservationStays(s, cfg, rs[0], k, reward);
        ReservationOutlasts(t, cfg, rs[1..], k, reward);
      }
    }
  }

  lemma EndedForGood(t: State, cfg: Config, rs: seq<Request>, k: nat, reward: Reward)
    requires Reachable(t, cfg) && FreshRun(t, cfg, rs)
    requires reward.claimId in t.rewards && t.rewards[reward.claimId].status in {Expired, Claimable}
    ensures !Holds(Run(t, cfg, rs), k, reward)
  {
    hide Inv, Books, Reachable, FreshRun, Run, RoundAdvances;
    ReachableIsKept(t, cfg);
    RunKeeps(t, cfg, rs);
    assert Advances(t.rewards[reward.claimId], Run(t, cfg, rs).rewards[reward.claimId]);
  }
}
