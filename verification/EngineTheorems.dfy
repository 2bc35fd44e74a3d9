// The promises of the engine-miner service, over every run from its initial state.
module EngineTheorems {
  import opened Common
  import opened EngineTypes
  import opened EngineSpec
  import opened EngineInvariant
  import opened EngineRuns
  import opened EnginePasses

  ghost predicate LeadsTo(s: State, t: State, cfg: Config) {
    exists rs :: FreshRun(s, cfg, rs) && t == Run(s, cfg, rs)
  }

  ghost predicate Reachable(s: State, cfg: Config) {
    LeadsTo(INITIAL, s, cfg)
  }

  lemma ReachableIsKept(s: State, cfg: Config)
    requires Reachable(s, cfg)
    ensures Inv(s) && Books(s)
  {
    var rs :| FreshRun(INITIAL, cfg, rs) && s == Run(INITIAL, cfg, rs);
    InitialOk();
    RunKeeps(INITIAL, cfg, rs);
  }

  lemma {:induction false} RunJoins(s: State, cfg: Config, rs: seq<Request>, qs: seq<Request>)
    requires FreshRun(s, cfg, rs) && FreshRun(Run(s, cfg, rs), cfg, qs)
    ensures FreshRun(s, cfg, rs + qs) && Run(s, cfg, rs + qs) == Run(Run(s, cfg, rs), cfg, qs)
    decreases |rs|
  {
    hide Fresh, Step;
    if rs == [] {
      assert [] + qs == qs;
    } else {
      RunJoins(Step(s, cfg, rs[0]).state, cfg, rs[1..], qs);
      assert (rs + qs)[1..] == rs[1..] + qs && (rs + qs)[0] == rs[0];
    }
  }

  // What is later than a reachable state is reachable.
  lemma LaterIsReachable(s: State, t: State, cfg: Config)
    requires Reachable(s, cfg) && LeadsTo(s, t, cfg)
    ensures Reachable(t, cfg)
  {
    hide Run, FreshRun;
    var rs :| FreshRun(INITIAL, cfg, rs) && s == Run(INITIAL, cfg, rs);
    var qs :| FreshRun(s, cfg, qs) && t == Run(s, cfg, qs);
    RunJoins(INITIAL, cfg, rs, qs);
  }

  lemma ReachableStep(s: State, cfg: Config, r: Request)
    requires Reachable(s, cfg) && Fresh(s, r)
    ensures Reachable(Step(s, cfg, r).state, cfg) && LeadsTo(s, Step(s, cfg, r).state, cfg)
  {
    hide Fresh, Step, Reachable;
    assert [r][1..] == [];
    assert FreshRun(s, cfg, [r]) && Run(s, cfg, [r]) == Step(s, cfg, r).state;
    LaterIsReachable(s, Step(s, cfg, r).state, cfg);
  }

  lemma LaterIsKept(s: State, t: State, cfg: Config)
    requires Inv(s) && Books(s) && LeadsTo(s, t, cfg)
    ensures Kept(s, t)
  {
    var rs :| FreshRun(s, cfg, rs) && t == Run(s, cfg, rs);
    RunKeeps(s, cfg, rs);
  }

  // Up to place k everybody failed, and behind it everybody waits; place k itself waits or holds the reservation.
  ghost predicate ServedUpTo(queue: seq<Candidate>, k: nat) {
    && k <= |queue|
    && (forall i :: 0 <= i < k ==> IsFailed(queue[i].status))
    && (forall i :: k < i < |queue| ==> queue[i].status == Queued)
    && (k < |queue| ==> queue[k].status == Queued || queue[k].status == ReservationActive)
  }

  function FailedPrefix(queue: seq<Candidate>): (k: nat)
    ensures k <= |queue|
    ensures forall i :: 0 <= i < k ==> IsFailed(queue[i].status)
    ensures k < |queue| ==> !IsFailed(queue[k].status)
  {
    if queue == [] || !IsFailed(queue[0].status) then 0 else 1 + FailedPrefix(queue[1..])
  }

  // The queue of the active round is served strictly in order of arrival: first those who failed, then the
  // holder of the reservation, if there is one, then those still waiting. Nobody in it has paid.
  lemma ServedInOrder(s: State, cfg: Config) returns (k: nat)
    requires Reachable(s, cfg) && s.active.Some?
    ensures FirstComeFirstServed(s.active.value.candidates)
    ensures ServedUpTo(s.active.value.candidates, k)
    ensures s.active.value.currentReservationId.Some? <==>
      k < |s.active.value.candidates| && s.active.value.candidates[k].status == ReservationActive
  {
    hide WinsOk, CountersOk, PendingOk, Filed, Books, Distinct, Members;
    ReachableIsKept(s, cfg);
    var queue := s.active.value.candidates;
    k := FailedPrefix(queue);
    assert forall i :: 0 <= i < |queue| ==> Linked(s.rewards, s.active.value.roundId, queue[i]);
    if k < |queue| {
      assert Rank(queue[k].status) > 0;
      forall i | k < i < |queue| ensures queue[i].status == Queued {
        assert Rank(queue[k].status) <= Rank(queue[i].status);
      }
    }
  }

  // While a round lasts, everybody keeps place and identity, and whoever got a reservation never gets
  // another one nor goes back to waiting.
  lemma PlacesAreKept(s: State, t: State, cfg: Config, i: nat)
    requires Reachable(s, cfg) && LeadsTo(s, t, cfg)
    requires s.active.Some? && t.active.Some? && s.roundCounter == t.roundCounter
    requires i < |s.active.value.candidates|
    ensures i < |t.active.value.candidates|
    ensures var before, after := s.active.value.candidates[i], t.active.value.candidates[i];
      && after.minerId == before.minerId && after.submissionId == before.submissionId
      && IndexOfSubmission(t.active.value.candidates, before.submissionId) == i
      && (before.reservationId.Some? ==> after.reservationId == before.reservationId && after.status != Queued)
      && (IsFailed(before.status) ==> after.status == before.status)
  {
    hide WinsOk, CountersOk, Filed, PendingOk, Books, Grows, Holder, FirstComeFirstServed, Members, Run, FreshRun;
    ReachableIsKept(s, cfg);
    LaterIsKept(s, t, cfg);
    assert CandidateAdvances(s.active.value.candidates[i], t.active.value.candidates[i]);
    assert Linked(s.rewards, s.active.value.roundId, s.active.value.candidates[i]);
    assert Distinct(t.active.value.candidates);
  }

  // At most one reward of the whole service awaits payment; there is one exactly while the active round
  // has a reservation, and then reward, index and queue agree on it.
  lemma OnePendingReward(s: State, cfg: Config)
    requires Reachable(s, cfg)
    ensures forall c, d | c in s.rewards && d in s.rewards ::
      s.rewards[c].status == PaymentPending == s.rewards[d].status ==> c == d
    ensures (exists c :: c in s.rewards && s.rewards[c].status == PaymentPending)
      <==> (s.active.Some? && s.active.value.currentReservationId.Some?)
    ensures s.active.Some? && s.active.value.currentReservationId.Some? ==> exists k, reward :: Holds(s, k, reward)
  {
    ReachableIsKept(s, cfg);
    if s.active.Some? && s.active.value.currentReservationId.Some? {
      var k, reward := HolderIs(s);
    }
    forall c, d | c in s.rewards && d in s.rewards
                  && s.rewards[c].status == PaymentPending == s.rewards[d].status
      ensures c == d
    {
      assert RewardOk(s, c) && RewardOk(s, d);
    }
  }

  // Looking a reservation up in the index finds exactly what a scan over all rewards would find.
  lemma IndexAgreesWithScan(s: State, cfg: Config, id: Id, reward: Reward)
    requires Reachable(s, cfg)
    ensures RewardByReservation(s, id) == Some(reward) <==>
      exists c :: c in s.rewards && s.rewards[c] == reward && reward.reservationId == id
  {
    ReachableIsKept(s, cfg);
    if c :| c in s.rewards && s.rewards[c] == reward && reward.reservationId == id {
      assert RewardOk(s, c);
    }
  }

  // The round object that a reconciliation works on keeps its queue, even when it is dropped at the end.
  lemma RoundSeen(s: State, cfg: Config, p: Pass)
    requires Inv(s) && FreshPass(s, p) && s.active.Some?
    ensures QueueAdvances(s.active.value.candidates, Reconcile(s, cfg, p).round.value.candidates)
  {
    hide Inv;
    var s1 := CheckDeadline(s, p);
    CheckDeadlineReconciles(s, p);
    PromoteAdvances(s1, cfg, p);
    RoundAdvancesTransitive(s, s1, Promote(s1, cfg, p).state);
  }

  lemma SolutionFindsCandidate(s: State, cfg: Config, r: Request)
    requires r.SubmitSolution? && Inv(s) && Books(s) && Fresh(s, r)
    ensures !Defensive(OnSubmitSolution(s, cfg, r).reply)
  {
    hide Inv, Books, Reconcile, EnsureRound, Grows, RoundAdvances, RoundNames, AnswerRound;
    EnsureErrors(s, cfg, r.pass, r.opening);
    if r.minerId in s.miners && EnsureRound(s, cfg, r.pass, r.opening).failure.None? {
      EnsureRoundKeeps(s, cfg, r.pass, r.opening);
      AnswerFindsCandidate(EnsureRound(s, cfg, r.pass, r.opening).state, cfg, r);
    }
  }

  lemma NobodyWonYet(s: State)
    requires Inv(s) && s.active.Some?
    ensures s.active.value.winnerMinerId.None?
  {
  }

  lemma AnswerFindsCandidate(e: State, cfg: Config, r: Request)
    requires r.SubmitSolution? && Inv(e) && Books(e) && e.active.Some? && r.minerId in e.miners
    requires FreshPass(e, r.again) && r.submissionId !in SubmissionNames(e)
    ensures !Defensive(AnswerRound(e, cfg, r).reply)
  {
    hide Inv, Books, Reconcile, Grows, RoundAdvances;
    NobodyWonYet(e);
    var round := e.active.value;
    var s1 := SetMiner(e, r.minerId, e.miners[r.minerId].(currentRoundId := Some(round.roundId)));
    TouchKept(e, r.minerId, s1.miners[r.minerId]);
    PassErrors(s1, cfg, r.again);
    if r.minerId !in round.attempted {
      EnqueueKept(s1, r.minerId, r.submissionId, r.receivedAt);
      var s3 := Enqueue(Attempt(s1, r.minerId, r.submissionId), r.minerId, r.submissionId, r.receivedAt);
      PassErrors(s3, cfg, r.again);
      RoundSeen(s3, cfg, r.again);
      var last := |s3.active.value.candidates| - 1;
      var seen := Reconcile(s3, cfg, r.again).round.value;
      assert CandidateAdvances(s3.active.value.candidates[last], seen.candidates[last]);
    }
  }

  lemma {:induction false} ScanErrors(queue: seq<Candidate>, i: nat, miners: set<Id>, fee: int,
                                      balances: map<Id, Funding>)
    requires i <= |queue|
    ensures var r := ScanQueue(queue, i, miners, fee, balances);
      r.ScanFailed? ==> r.error == ProviderFailed || r.error == UnknownMiner
    decreases |queue| - i
  {
    if i < |queue| {
      if queue[i].status != Queued {
        ScanErrors(queue, i + 1, miners, fee, balances);
      } else if queue[i].minerId in miners && queue[i].minerId in balances {
        var c := Asked(queue[i], balances[queue[i].minerId]).(status := Underfunded);
        ScanErrors(queue[i := c], i + 1, miners, fee, balances);
      }
    }
  }

  lemma PassErrors(s: State, cfg: Config, p: Pass)
    ensures Reconcile(s, cfg, p).failure in {None, Some(ProviderFailed), Some(UnknownMiner)}
  {
    var t := CheckDeadline(s, p);
    if t.active.Some? {
      ScanErrors(t.active.value.candidates, 0, t.miners.Keys, cfg.requiredClaimFeeSats, p.balances);
    }
  }

  lemma EnsureErrors(s: State, cfg: Config, p: Pass, o: Opening)
    ensures EnsureRound(s, cfg, p, o).failure in {None, Some(ProviderFailed), Some(UnknownMiner)}
  {
    hide Reconcile;
    PassErrors(s, cfg, p);
  }

  // The errors and answers behind branches that the service guards against.
  predicate Defensive(reply: Reply) {
    match reply
    case Threw(error) => error == ReservationInactive || error == UnknownSubmission
    case Returned(response) => response.RoundClosed?
  }

  lemma SettleFindsRound(s: State, cfg: Config, r: Request, reward: Reward)
    requires r.SubmitClaimPayment? && Inv(s)
    requires RewardByReservation(s, r.payment.reservationId) == Some(reward) && reward.minerId in s.miners
    ensures !Defensive(SettlePayment(s, cfg, r, reward).reply)
  {
    hide Inv, Reconcile, Expire, Win;
    if reward.status == PaymentPending {
      var k, held := PendingIsHeld(s, r.payment.reservationId);
      PassErrors(Expire(s, reward, TimedOut), cfg, r.again);
      PassErrors(Expire(s, reward, PaymentRejected), cfg, r.again);
    }
  }

  lemma PaymentFindsRound(s: State, cfg: Config, r: Request)
    requires r.SubmitClaimPayment? && Inv(s) && Books(s) && Fresh(s, r)
    ensures !Defensive(OnSubmitClaimPayment(s, cfg, r).reply)
  {
    hide Inv, Books, Reconcile, SettlePayment, Reconciles, Grows, RoundAdvances;
    KeptByPass(s, cfg, r.pass);
    PassErrors(s, cfg, r.pass);
    var t := Reconcile(s, cfg, r.pass).state;
    var found := RewardByReservation(t, r.payment.reservationId);
    if found.Some? && found.value.minerId in t.miners {
      SettleFindsRound(t, cfg, r, found.value);
    }
  }

  // Requests that neither submit an answer nor a payment.
  lemma PlainReplies(s: State, cfg: Config, r: Request)
    requires !r.SubmitClaimPayment? && !r.SubmitSolution?
    ensures !Defensive(Step(s, cfg, r).reply)
  {
    hide Reconcile, EnsureRound;
    match r
    case StartMining(m, p, o) =>
      if m in s.miners { EnsureErrors(SetMiner(s, m, s.miners[m].(mining := true)), cfg, p, o); }
    case GetCurrentRound(m, p, o) => EnsureErrors(s, cfg, p, o);
    case GetMinerStatus(m, p) => PassErrors(s, cfg, p);
    case ListClaimableRewards(m, p) => PassErrors(s, cfg, p);
    case RequestClaimReceipt(_, _, p, _, _, _, _) =>
      PassErrors(s, cfg, p);
      ReceiptErrors(Reconcile(s, cfg, p).state, r.minerId, r.claimIds, 0);
    case _ =>
  }

  // No reachable state takes them: a pending reward always has its round, a correct answer always finds
  // its candidate, and no active round has a winner.
  lemma DefensiveBranchesAreDead(s: State, cfg: Config, r: Request)
    requires Reachable(s, cfg) && Fresh(s, r)
    ensures !Defensive(Step(s, cfg, r).reply)
  {
    hide Inv, Books, OnSubmitSolution, OnSubmitClaimPayment, Defensive;
    ReachableIsKept(s, cfg);
    if r.SubmitClaimPayment? {
      PaymentFindsRound(s, cfg, r);
    } else if r.SubmitSolution? {
      SolutionFindsCandidate(s, cfg, r);
    } else {
      PlainReplies(s, cfg, r);
    }
  }

  lemma {:induction false} ReceiptErrors(s: State, minerId: Id, claimIds: seq<Id>, i: nat)
    requires i <= |claimIds|
    ensures ReceiptObstacle(s, minerId, claimIds, i) in {None, Some(RewardNotFound), Some(RewardNotReady)}
    decreases |claimIds| - i
  {
    if i < |claimIds| {
      ReceiptErrors(s, minerId, claimIds, i + 1);
    }
  }

  // Whenever a request starts a reconciliation, be it its first or the one after an answer or an expired
  // payment, the open reservation has its reward and that reward is pending. So the pass either leaves the
  // reservation alone or times it out; it never merely forgets it.
  lemma RepairIsDead(s: State, cfg: Config, r: Request, start: Start)
    requires Reachable(s, cfg) && Fresh(s, r)
    requires FirstPass(s, r) == Some(start) || SecondPass(s, cfg, r) == Some(start)
    requires start.state.active.Some? && start.state.active.value.currentReservationId.Some?
    ensures var reward := RewardByReservation(start.state, start.state.active.value.currentReservationId.value);
      reward.Some? && reward.value.status == PaymentPending
  {
    hide Inv, Books, Fresh, FirstPass, SecondPass, Grows, RoundAdvances;
    ReachableIsKept(s, cfg);
    if FirstPass(s, r) == Some(start) {
      FirstPassKept(s, cfg, r);
    } else {
      SecondPassKept(s, cfg, r);
    }
    var k, reward := HolderIs(start.state);
  }

  // ---- What wins a round ----

  lemma SettledAside(s: State, c: Id, reward: Reward)
    requires !IsWon(reward.status) && (c in s.rewards ==> !IsWon(s.rewards[c].status))
    ensures Won(s.rewards[c := reward]) == Won(s.rewards)
  {
    SameWins(s.rewards, c, reward);
  }

  lemma DeadlineKeepsWon(s: State, p: Pass)
    requires Inv(s)
    ensures Won(CheckDeadline(s, p).rewards) == Won(s.rewards)
  {
    hide Inv, Won;
    if s.active.Some? && s.active.value.currentReservationId.Some? {
      var k, reward := HolderIs(s);
      SettledAside(s, reward.claimId, reward.(status := Expired));
    }
  }

  lemma PromoteKeepsWon(s: State, cfg: Config, p: Pass)
    requires p.claimId !in s.rewards
    ensures Won(Promote(s, cfg, p).state.rewards) == Won(s.rewards)
  {
    hide Won, ScanQueue;
    var t := Promote(s, cfg, p).state;
    if t.rewards != s.rewards {
      SettledAside(s, p.claimId, t.rewards[p.claimId]);
    }
  }

  lemma ReconcileKeepsWon(s: State, cfg: Config, p: Pass)
    requires Inv(s) && FreshPass(s, p)
    ensures Won(Reconcile(s, cfg, p).state.rewards) == Won(s.rewards)
  {
    hide Inv, Won, CheckDeadline, Promote;
    CheckDeadlineKeeps(s, p);
    DeadlineKeepsWon(s, p);
    PromoteKeepsWon(CheckDeadline(s, p), cfg, p);
  }

  lemma EnsureKeepsWon(s: State, cfg: Config, p: Pass, o: Opening)
    requires Inv(s) && FreshPass(s, p)
    ensures Won(EnsureRound(s, cfg, p, o).state.rewards) == Won(s.rewards)
  {
    hide Inv, Won, Reconcile;
    ReconcileKeepsWon(s, cfg, p);
  }

  lemma AnswerKeepsWon(s: State, cfg: Config, r: Request)
    requires r.SubmitSolution? && Inv(s) && Books(s) && Fresh(s, r)
    ensures Won(OnSubmitSolution(s, cfg, r).state.rewards) == Won(s.rewards)
  {
    hide Inv, Books, Won, Reconcile, Grows, RoundNames, SubmissionNames, EnsureRound, OnSubmitSolution, SecondPass;
    if SecondPass(s, cfg, r).None? {
      WithoutSecondPass(s, cfg, r);
      EnsureKeepsWon(s, cfg, r.pass, r.opening);
    } else {
      SecondPassKept(s, cfg, r);
      SecondPassIsLast(s, cfg, r, r.again);
      SecondFresh(s, cfg, r);
      var second := SecondPass(s, cfg, r).value;
      EnsureKeepsWon(s, cfg, r.pass, r.opening);
      ReconcileKeepsWon(second.state, cfg, second.pass);
    }
  }

  lemma WithoutSecondPass(s: State, cfg: Config, r: Request)
    requires r.SubmitSolution? && SecondPass(s, cfg, r).None?
    ensures OnSubmitSolution(s, cfg, r).state.rewards ==
      if r.minerId in s.miners then EnsureRound(s, cfg, r.pass, r.opening).state.rewards else s.rewards
  {
    hide Reconcile, EnsureRound;
  }

  lemma SecondFresh(s: State, cfg: Config, r: Request)
    requires r.SubmitSolution? && Inv(s) && Books(s) && Fresh(s, r) && SecondPass(s, cfg, r).Some?
    ensures FreshPass(SecondPass(s, cfg, r).value.state, r.again) && SecondPass(s, cfg, r).value.pass == r.again
    ensures SecondPass(s, cfg, r).value.state.rewards == EnsureRound(s, cfg, r.pass, r.opening).state.rewards
  {
    hide Inv, Books, Reconcile, EnsureRound, Grows, RoundAdvances, SubmissionNames, RoundNames;
    EnsureRoundKeeps(s, cfg, r.pass, r.opening);
  }

  // A settled payment adds its reward to the won ones exactly when it pays off, and else leaves them alone.
  lemma SettleWon(t: State, cfg: Config, r: Request, reward: Reward)
    requires r.SubmitClaimPayment? && Inv(t) && Books(t) && FreshPass(t, r.again)
    requires RewardByReservation(t, r.payment.reservationId) == Some(reward) && reward.minerId in t.miners
    ensures var after := Won(SettlePayment(t, cfg, r, reward).state.rewards);
      if PaysOff(t, cfg, r, reward) then after == Won(t.rewards) + {reward.claimId} && reward.claimId !in Won(t.rewards)
      else after == Won(t.rewards)
  {
    hide Inv, Books, Grows, Reconcile, RoundAdvances, PaysTreasury;
    if reward.status == PaymentPending {
      var k, held := PendingIsHeld(t, r.payment.reservationId);
      ExpireKept(t, k, reward, TimedOut, r.again);
      ExpireKept(t, k, reward, PaymentRejected, r.again);
      SettledAside(t, reward.claimId, reward.(status := Expired));
      ReconcileKeepsWon(Expire(t, reward, TimedOut), cfg, r.again);
      ReconcileKeepsWon(Expire(t, reward, PaymentRejected), cfg, r.again);
    }
  }

  // A payment that goes through all the checks in front of settlement, and pays off.
  ghost predicate WinsRound(s: State, cfg: Config, r: Request) {
    && r.SubmitClaimPayment?
    && var pass, pay := Reconcile(s, cfg, r.pass), r.payment;
    && var found := RewardByReservation(pass.state, pay.reservationId);
    && pass.failure.None?
    && found.Some? && found.value.minerId == pay.minerId && pay.minerId in pass.state.miners
    && PaymentMismatch(pass.state.miners[pay.minerId], pay).None?
    && PaysOff(pass.state, cfg, r, found.value)
  }

  lemma PaymentWon(s: State, cfg: Config, r: Request)
    requires r.SubmitClaimPayment? && Inv(s) && Books(s) && Fresh(s, r)
    ensures var after := Won(OnSubmitClaimPayment(s, cfg, r).state.rewards);
      var found := RewardByReservation(Reconcile(s, cfg, r.pass).state, r.payment.reservationId);
      if WinsRound(s, cfg, r) then
        after == Won(s.rewards) + {found.value.claimId} && found.value.claimId !in Won(s.rewards)
      else after == Won(s.rewards)
  {
    hide Inv, Books, Won, Grows, Reconcile, Reconciles, RoundAdvances, SettlePayment, PaysOff;
    KeptByPass(s, cfg, r.pass);
    ReconcileKeepsWon(s, cfg, r.pass);
    var t := Reconcile(s, cfg, r.pass).state;
    FreshStays(s, t, r.pass, r.again);
    var found := RewardByReservation(t, r.payment.reservationId);
    if found.Some? && found.value.minerId in t.miners {
      SettleWon(t, cfg, r, found.value);
    }
  }

  // Requests that neither submit an answer nor a payment.
  lemma OthersKeepWon(s: State, cfg: Config, r: Request)
    requires Inv(s) && Books(s) && Fresh(s, r) && !r.SubmitSolution? && !r.SubmitClaimPayment?
    ensures Won(Step(s, cfg, r).state.rewards) == Won(s.rewards)
  {
    hide Inv, Books, Won, Reconcile, EnsureRound, RoundNames;
    match r
    case StartMining(m, p, o) =>
      if m in s.miners {
        FirstPassKept(s, cfg, r);
        EnsureKeepsWon(FirstPass(s, r).value.state, cfg, p, o);
      }
    case GetCurrentRound(m, p, o) => EnsureKeepsWon(s, cfg, p, o);
    case GetMinerStatus(_, p) => ReconcileKeepsWon(s, cfg, p);
    case ListClaimableRewards(_, p) => ReconcileKeepsWon(s, cfg, p);
    case RequestClaimReceipt(_, claimIds, p, _, _, _, _) =>
      ReconcileKeepsWon(s, cfg, p);
      var t := Reconcile(s, cfg, p).state;
      if AllClaimable(t.rewards, claimIds) {
        IssueWins(t.rewards, claimIds);
      }
    case _ =>
  }

  // Only a payment that pays off wins a round, and then it wins the one reward it pays for. No answer to a
  // puzzle wins anything by itself.
  lemma OnlyPaymentsWin(s: State, cfg: Config, r: Request)
    requires Reachable(s, cfg) && Fresh(s, r)
    ensures Won(Step(s, cfg, r).state.rewards) != Won(s.rewards) <==> WinsRound(s, cfg, r)
    ensures WinsRound(s, cfg, r) ==>
      var reward := RewardByReservation(Reconcile(s, cfg, r.pass).state, r.payment.reservationId).value;
      Won(Step(s, cfg, r).state.rewards) == Won(s.rewards) + {reward.claimId}
    ensures r.SubmitSolution? ==> Won(Step(s, cfg, r).state.rewards) == Won(s.rewards)
  {
    hide Inv, Books, Fresh, OnSubmitSolution, OnSubmitClaimPayment, WinsRound, Won;
    ReachableIsKept(s, cfg);
    if r.SubmitClaimPayment? {
      PaymentWon(s, cfg, r);
    } else if r.SubmitSolution? {
      AnswerKeepsWon(s, cfg, r);
    } else {
      OthersKeepWon(s, cfg, r);
    }
    assert WinsRound(s, cfg, r) ==> r.SubmitClaimPayment? by { WinsByPayment(s, cfg, r); }
  }

  lemma WinsByPayment(s: State, cfg: Config, r: Request)
    ensures WinsRound(s, cfg, r) ==> r.SubmitClaimPayment?
  {
  }

  // A request that wins, and so changes what is won, is a payment of the candidate that holds the reservation after
  // the first reconciliation: the candidate turns to paid, its submission is the winning one, its miner the winner,
  // the answer says so, and no round is left active.
  lemma WinnerIsHolder(s: State, cfg: Config, r: Request) returns (k: nat, reward: Reward)
    requires Reachable(s, cfg) && Fresh(s, r) && WinsRound(s, cfg, r)
    ensures r.SubmitClaimPayment? && r.payment.minerId == reward.minerId
    ensures Holds(Reconcile(s, cfg, r.pass).state, k, reward)
    ensures var t := Reconcile(s, cfg, r.pass).state; var round := t.active.value; var c := round.candidates[k];
      && WonRound(round, reward).candidates == round.candidates[k := c.(status := Paid)]
      && WonRound(round, reward).winnerMinerId == Some(c.minerId)
      && WinningSubmission(round, reward, t.miners[reward.minerId]) == Some(c.submissionId)
    ensures AcceptedPayment(Step(s, cfg, r).reply) && Step(s, cfg, r).state.active.None?
  {
    hide Inv, Books, Won, Grows, Reconcile, Reconciles, RoundAdvances, PaysTreasury, Fresh;
    ReachableIsKept(s, cfg);
    FreshFirst(s, r);
    KeptByPass(s, cfg, r.pass);
    k, reward := PendingIsHeld(Reconcile(s, cfg, r.pass).state, r.payment.reservationId);
  }

  lemma FreshFirst(s: State, r: Request)
    requires r.SubmitClaimPayment? && Fresh(s, r)
    ensures FreshPass(s, r.pass)
  {
  }

  // ---- What a queued answer is told ----

  // The candidate is the one the answer speaks about, as it stands.
  ghost predicate Describes(answer: Response, c: Candidate)
    requires answer.ValidAnswer?
  {
    && c.submissionId == answer.submissionId
    && c.status == answer.status
    && c.reservationId == answer.reservationId
    && c.paymentDeadlineAt == answer.paymentDeadlineAt
  }

  // Why a new candidate got the status it is told: somebody ahead of it holds the reservation, or its balance
  // was read and was below the fee, or it was not and it holds the reservation itself.
  ghost predicate Deserves(t: State, cfg: Config, m: Id, p: Pass, answer: Response)
    requires answer.ValidAnswer?
  {
    match answer.status
    case Queued => exists k: nat, reward :: k + 1 < answer.queuePosition && Holds(t, k, reward)
    case Underfunded => m in p.balances && p.balances[m].balanceSats < cfg.requiredClaimFeeSats
    case ReservationActive =>
      && m in p.balances && p.balances[m].balanceSats >= cfg.requiredClaimFeeSats
      && exists k: nat, reward :: k + 1 == answer.queuePosition && Holds(t, k, reward)
    case _ => false
  }

  // The answer describes the miner's candidate of the answered round, at its place in the queue; a round that
  // was dropped at once leaves only the failure to tell.
  ghost predicate Truthful(t: State, cfg: Config, roundId: Id, m: Id, p: Pass, answer: Response) {
    && answer.ValidAnswer?
    && Deserves(t, cfg, m, p, answer)
    && answer.rewardTokens == (if answer.status == ReservationActive then 1000 else 0)
    && answer.queuePosition > 0
    && if t.active.None? then IsFailed(answer.status) && answer.reservationId.None? && answer.paymentDeadlineAt.None?
       else
         && t.active.value.roundId == roundId
         && answer.queuePosition <= |t.active.value.candidates|
         && t.active.value.candidates[answer.queuePosition - 1].minerId == m
         && Describes(answer, t.active.value.candidates[answer.queuePosition - 1])
  }

  // A candidate that just joined, at the end of the queue.
  ghost predicate JustJoined(queue: seq<Candidate>, m: Id, submissionId: Id) {
    queue != []
    && var c := queue[|queue| - 1];
    c.minerId == m && c.submissionId == submissionId && c.status == Queued
    && c.reservationId.None? && c.paymentDeadlineAt.None?
  }

  lemma DeadlineSparesLast(s: State, p: Pass, m: Id, submissionId: Id)
    requires Inv(s) && s.active.Some? && JustJoined(s.active.value.candidates, m, submissionId)
    ensures var round := CheckDeadline(s, p).active.value;
      && round.roundId == s.active.value.roundId
      && |round.candidates| == |s.active.value.candidates|
      && JustJoined(round.candidates, m, submissionId)
  {
    hide RoundOk, WinsOk, CountersOk, PendingOk, Filed;
    if s.active.value.currentReservationId.Some? {
      var k, reward := HolderIs(s);
    }
  }

  // What promotion makes of the last candidate.
  lemma PromoteAnswersLast(s: State, cfg: Config, p: Pass, m: Id, submissionId: Id)
    requires Inv(s) && s.active.Some? && JustJoined(s.active.value.candidates, m, submissionId)
    requires Promote(s, cfg, p).failure.None?
    ensures var round := Promote(s, cfg, p).state.active.value;
      && round.roundId == s.active.value.roundId
      && |round.candidates| == |s.active.value.candidates|
      && var c := round.candidates[|round.candidates| - 1];
      && c.minerId == m && c.submissionId == submissionId
      && (c.status == Queued ==> round.currentReservationId.Some?)
      && (c.status == Queued || c.status == Underfunded ==> c.reservationId.None? && c.paymentDeadlineAt.None?)
      && match c.status
         case Queued => true
         case Underfunded => m in p.balances && p.balances[m].balanceSats < cfg.requiredClaimFeeSats
         case ReservationActive => m in p.balances && p.balances[m].balanceSats >= cfg.requiredClaimFeeSats
         case _ => false
  {
    hide WinsOk, CountersOk, PendingOk, Filed, Holder, FirstComeFirstServed, Distinct, Members, Linked;
    ScanIs(s.active.value.candidates, 0, s.miners.Keys, cfg.requiredClaimFeeSats, p.balances);
  }

  lemma QueuedAnswerIsTruthful(s: State, cfg: Config, p: Pass, m: Id, submissionId: Id)
    requires Inv(s) && FreshPass(s, p) && s.active.Some? && Reconcile(s, cfg, p).failure.None?
    requires JustJoined(s.active.value.candidates, m, submissionId)
    ensures var reply := SolutionReply(Reconcile(s, cfg, p).round.value, submissionId);
      && reply.Returned?
      && Truthful(Reconcile(s, cfg, p).state, cfg, s.active.value.roundId, m, p, reply.value)
      && reply.value.submissionId == submissionId && reply.value.queuePosition == |s.active.value.candidates|
  {
    hide CheckDeadline, Promote, Inv;
    var s1 := CheckDeadline(s, p);
    CheckDeadlineKeeps(s, p);
    PromoteKeeps(s1, cfg, p);
    DeadlineSparesLast(s, p, m, submissionId);
    PromoteAnswersLast(s1, cfg, p, m, submissionId);
    var s2 := Promote(s1, cfg, p).state;
    var queue := s2.active.value.candidates;
    var k := |queue| - 1;
    SubmissionAt(s2, k);
    LastIsServed(s2, k);
    if queue[k].status == Queued || queue[k].status == ReservationActive {
      hide Holds;
      var j, reward := HolderIs(s2);
      assert Holds(Reconcile(s, cfg, p).state, j, reward);
    }
  }

  lemma SubmissionAt(s: State, k: nat)
    requires Inv(s) && s.active.Some? && k < |s.active.value.candidates|
    ensures IndexOfSubmission(s.active.value.candidates, s.active.value.candidates[k].submissionId) == k
  {
    hide WinsOk, CountersOk, PendingOk, Filed, Holder, FirstComeFirstServed, Members, Linked;
  }

  // Whoever waits last waits behind the holder, and whoever holds the reservation is the only one to.
  lemma LastIsServed(s: State, k: nat)
    requires Inv(s) && s.active.Some? && k == |s.active.value.candidates| - 1
    ensures s.active.value.winnerMinerId.None?
    ensures var c := s.active.value.candidates[k];
      && (c.status == ReservationActive ==> s.active.value.currentReservationId.Some?)
      && (c.status == Queued || c.status == ReservationActive ==>
            forall j: nat, reward :: Holds(s, j, reward) ==> j <= k && (j == k <==> c.status == ReservationActive))
  {
    hide WinsOk, CountersOk, PendingOk, Filed, Members;
    assert Linked(s.rewards, s.active.value.roundId, s.active.value.candidates[k]);
  }

  // Every queued answer tells the miner its true place and status in the round it answered, and a miner who is
  // told of a reservation really holds it, until the deadline it is told.
  lemma AnswersAreTruthful(s: State, cfg: Config, r: Request)
    requires Reachable(s, cfg) && Fresh(s, r) && r.SubmitSolution?
    requires Step(s, cfg, r).reply.Returned? && Step(s, cfg, r).reply.value.ValidAnswer?
    ensures var answer := Step(s, cfg, r).reply.value;
      && Truthful(Step(s, cfg, r).state, cfg, r.roundId, r.minerId, r.again, answer)
      && answer.submissionId == r.submissionId
      && answer.queuePosition == 1 + |EnsureRound(s, cfg, r.pass, r.opening).state.active.value.candidates|
  {
    hide Inv, Books, Reconcile, EnsureRound, Grows, RoundAdvances, RoundNames, Truthful;
    ReachableIsKept(s, cfg);
    EnsureRoundKeeps(s, cfg, r.pass, r.opening);
    var e := EnsureRound(s, cfg, r.pass, r.opening).state;
    var s1 := SetMiner(e, r.minerId, e.miners[r.minerId].(currentRoundId := Some(e.active.value.roundId)));
    TouchKept(e, r.minerId, s1.miners[r.minerId]);
    EnqueueKept(s1, r.minerId, r.submissionId, r.receivedAt);
    var s3 := Enqueue(Attempt(s1, r.minerId, r.submissionId), r.minerId, r.submissionId, r.receivedAt);
    QueuedAnswerIsTruthful(s3, cfg, r.again, r.minerId, r.submissionId);
  }

  // ---- Conservation of wins, rewards and receipts ----

  function Totals(miners: map<Id, Miner>): map<Id, nat> {
    map m | m in miners :: miners[m].totalRewards
  }

  ghost function TotalRewards(s: State): nat {
    Sum(Totals(s.miners))
  }

  ghost function WonAmong(rewards: map<Id, Reward>, miners: set<Id>): set<Id> {
    set c | c in rewards && IsWon(rewards[c].status) && rewards[c].minerId in miners
  }

  lemma {:induction false} TotalsCount(rewards: map<Id, Reward>, miners: map<Id, Miner>)
    requires forall m :: m in miners ==> miners[m].totalRewards == ROUND_REWARD_TOKENS * |WonBy(rewards, m)|
    ensures Sum(Totals(miners)) == ROUND_REWARD_TOKENS * |WonAmong(rewards, miners.Keys)|
    decreases |miners|
  {
    if miners == map[] {
      assert WonAmong(rewards, miners.Keys) == {};
      assert Totals(miners) == map[];
    } else {
      var m :| m in miners;
      var rest := miners - {m};
      TotalsCount(rewards, rest);
      hide WonAmong, WonBy, Totals;
      TotalsSplit(miners, m);
      WonSplits(rewards, miners.Keys, m);
    }
  }

  lemma TotalsSplit(miners: map<Id, Miner>, m: Id)
    requires m in miners
    ensures Sum(Totals(miners)) == miners[m].totalRewards + Sum(Totals(miners - {m}))
    ensures miners.Keys - {m} == (miners - {m}).Keys
  {
    SumTakeOut(Totals(miners), m);
    assert Totals(miners) - {m} == Totals(miners - {m});
  }

  lemma WonSplits(rewards: map<Id, Reward>, miners: set<Id>, m: Id)
    requires m in miners
    ensures |WonAmong(rewards, miners)| == |WonAmong(rewards, miners - {m})| + |WonBy(rewards, m)|
  {
    assert WonAmong(rewards, miners) == WonAmong(rewards, miners - {m}) + WonBy(rewards, m);
    assert WonAmong(rewards, miners - {m}) !! WonBy(rewards, m);
  }

  // Every miner's tokens are exactly its wins, a round is won at most once, and all tokens together never
  // exceed what the finished rounds offered.
  lemma RewardsAreConserved(s: State, cfg: Config)
    requires Reachable(s, cfg)
    ensures forall m :: m in s.miners ==>
      s.miners[m].totalWins == |WonBy(s.rewards, m)| && s.miners[m].totalRewards == 1000 * s.miners[m].totalWins
    ensures forall c, d | c in Won(s.rewards) && d in Won(s.rewards) ::
      s.rewards[c].roundId == s.rewards[d].roundId ==> c == d
    ensures TotalRewards(s) == 1000 * |Won(s.rewards)|
    ensures TotalRewards(s) <= 1000 * (s.roundCounter - if s.active.Some? then 1 else 0)
  {
    ReachableIsKept(s, cfg);
    hide RoundOk, PendingOk;
    TotalsCount(s.rewards, s.miners);
    assert WonAmong(s.rewards, s.miners.Keys) == Won(s.rewards) by {
      assert forall c :: c in s.rewards ==> RewardOk(s, c);
    }
  }

  ghost function ClaimableSet(rewards: map<Id, Reward>): set<Id> {
    set c | c in rewards && rewards[c].status == Claimable
  }

  ghost function IssuedSet(rewards: map<Id, Reward>): set<Id> {
    set c | c in rewards && rewards[c].status == ReceiptIssued
  }

  function Tokens(receipts: map<Id, Receipt>): map<Id, nat> {
    map c | c in receipts :: receipts[c].rewardTokens
  }

  ghost function ReceiptTokens(receipts: map<Id, Receipt>): nat {
    Sum(Tokens(receipts))
  }

  ghost function RoundsCovered(receipts: map<Id, Receipt>): set<Id> {
    set c, id | c in receipts && id in receipts[c].roundIds :: id
  }

  ghost predicate AllRepeatFree(receipts: map<Id, Receipt>) {
    forall c :: c in receipts ==> NoRepeats(receipts[c].roundIds)
  }

  // Receipts promise at least 1000 tokens for each round they cover, and exactly that if none repeats a round.
  lemma {:induction false} ReceiptsCount(receipts: map<Id, Receipt>)
    requires forall c :: c in receipts ==> receipts[c].rewardTokens == ROUND_REWARD_TOKENS * |receipts[c].roundIds|
    requires forall c, d | c in receipts && d in receipts && c != d ::
      Elements(receipts[c].roundIds) !! Elements(receipts[d].roundIds)
    ensures ReceiptTokens(receipts) >= ROUND_REWARD_TOKENS * |RoundsCovered(receipts)|
    ensures ReceiptTokens(receipts) == ROUND_REWARD_TOKENS * |RoundsCovered(receipts)| <==> AllRepeatFree(receipts)
    decreases |receipts|
  {
    if receipts == map[] {
      assert RoundsCovered(receipts) == {};
      assert Tokens(receipts) == map[];
    } else {
      var c :| c in receipts;
      var rest := receipts - {c};
      ReceiptsCount(rest);
      TokensSplit(receipts, c);
      hide ReceiptTokens, RoundsCovered, AllRepeatFree;
      CoverSplits(receipts, c);
      ElementsCount(receipts[c].roundIds);
    }
  }

  lemma TokensSplit(receipts: map<Id, Receipt>, c: Id)
    requires c in receipts
    ensures ReceiptTokens(receipts) == receipts[c].rewardTokens + ReceiptTokens(receipts - {c})
    ensures AllRepeatFree(receipts) <==> AllRepeatFree(receipts - {c}) && NoRepeats(receipts[c].roundIds)
  {
    SumTakeOut(Tokens(receipts), c);
    assert Tokens(receipts) - {c} == Tokens(receipts - {c});
    if AllRepeatFree(receipts - {c}) && NoRepeats(receipts[c].roundIds) {
      forall d | d in receipts ensures NoRepeats(receipts[d].roundIds) {
        if d != c { assert (receipts - {c})[d] == receipts[d]; }
      }
    }
  }

  lemma CoverSplits(receipts: map<Id, Receipt>, c: Id)
    requires c in receipts
    requires forall d | d in receipts && d != c :: Elements(receipts[c].roundIds) !! Elements(receipts[d].roundIds)
    ensures |RoundsCovered(receipts)| == |RoundsCovered(receipts - {c})| + |Elements(receipts[c].roundIds)|
  {
    var rest, own := receipts - {c}, Elements(receipts[c].roundIds);
    forall id | id in RoundsCovered(receipts) ensures id in RoundsCovered(rest) + own {
      var d :| d in receipts && id in receipts[d].roundIds;
      if d != c { assert d in rest && id in rest[d].roundIds; }
    }
    forall id | id in RoundsCovered(rest) ensures id in RoundsCovered(receipts) && id !in own {
      var d :| d in rest && id in rest[d].roundIds;
      assert id in Elements(receipts[d].roundIds);
    }
    assert RoundsCovered(receipts) == RoundsCovered(rest) + own;
  }

  // Distinct won rewards belong to distinct rounds, so counting issued rewards is counting their rounds.
  lemma {:induction false} IssuedCount(rewards: map<Id, Reward>, issued: set<Id>)
    requires forall c :: c in issued ==> c in rewards
    requires forall c, d | c in issued && d in issued :: rewards[c].roundId == rewards[d].roundId ==> c == d
    ensures |set c | c in issued :: rewards[c].roundId| == |issued|
    decreases |issued|
  {
    if issued != {} {
      var c :| c in issued;
      IssuedCount(rewards, issued - {c});
      var rest := set d | d in issued - {c} :: rewards[d].roundId;
      assert (set d | d in issued :: rewards[d].roundId) == rest + {rewards[c].roundId};
    }
  }

  // No round is on two receipts, and receipts plus claimable rewards add up to what the miners won
  // exactly when no receipt lists a round twice; otherwise receipts promise more than was won.
  lemma ReceiptsBalance(s: State, cfg: Config)
    requires Reachable(s, cfg)
    ensures forall c, d | c in s.receipts && d in s.receipts && c != d ::
      Elements(s.receipts[c].roundIds) !! Elements(s.receipts[d].roundIds)
    ensures ReceiptTokens(s.receipts) + 1000 * |ClaimableSet(s.rewards)| >= TotalRewards(s)
    ensures ReceiptTokens(s.receipts) + 1000 * |ClaimableSet(s.rewards)| == TotalRewards(s)
      <==> AllRepeatFree(s.receipts)
  {
    ReachableIsKept(s, cfg);
    RewardsAreConserved(s, cfg);
    BooksBalance(s);
  }

  lemma BooksBalance(s: State)
    requires Books(s) && WinsOk(s)
    ensures ReceiptTokens(s.receipts) + 1000 * |ClaimableSet(s.rewards)| >= 1000 * |Won(s.rewards)|
    ensures ReceiptTokens(s.receipts) + 1000 * |ClaimableSet(s.rewards)| == 1000 * |Won(s.rewards)|
      <==> AllRepeatFree(s.receipts)
  {
    var issued := IssuedSet(s.rewards);
    assert Won(s.rewards) == ClaimableSet(s.rewards) + issued;
    IssuedCount(s.rewards, issued);
    assert IssuedRounds(s.rewards) == set c | c in issued :: s.rewards[c].roundId;
    CoversIssued(s);
    assert forall c :: c in s.receipts ==> ReceiptOk(s, c);
    hide IssuedRounds, Won, ReceiptTokens, RoundsCovered, AllRepeatFree, IssuedSet, ClaimableSet;
    ReceiptsCount(s.receipts);
  }

  lemma CoversIssued(s: State)
    requires Books(s)
    ensures RoundsCovered(s.receipts) == IssuedRounds(s.rewards)
  {
  }

  lemma RoundsRepeatWithClaims(t: State, claimIds: seq<Id>)
    requires Inv(t) && AllClaimable(t.rewards, claimIds)
    ensures NoRepeats(RoundsOf(t.rewards, claimIds)) <==> NoRepeats(claimIds)
    ensures TokensOf(t.rewards, claimIds, |claimIds|) == 1000 * |claimIds|
  {
    hide RoundOk, PendingOk, CountersOk;
    var rounds := RoundsOf(t.rewards, claimIds);
    ClaimableTokensAre(t, claimIds);
    forall i, j | 0 <= i < j < |rounds| ensures rounds[i] == rounds[j] <==> claimIds[i] == claimIds[j] {
      assert IsWon(t.rewards[claimIds[i]].status) && IsWon(t.rewards[claimIds[j]].status);
    }
  }

  // The service does not reject a claim listed twice: such a request is granted twice the tokens, and from
  // then on the receipts no longer balance. A receipt repeats a round exactly when its request repeats a claim.
  lemma ReceiptRepeatsWhenRequestDoes(s: State, cfg: Config, r: Request)
    requires Reachable(s, cfg) && Fresh(s, r) && r.RequestClaimReceipt?
    requires Step(s, cfg, r).reply.Returned?
    ensures Step(s, cfg, r).reply.value.ReceiptOf?
    ensures var receipt := Step(s, cfg, r).reply.value.receipt;
      && receipt.rewardTokens == 1000 * |r.claimIds|
      && (NoRepeats(receipt.roundIds) <==> NoRepeats(r.claimIds))
  {
    hide Inv, Books, Reconcile, Reconciles, Grows, RoundAdvances, TokensOf, RoundsOf;
    ReachableIsKept(s, cfg);
    KeptByPass(s, cfg, r.pass);
    RoundsRepeatWithClaims(Reconcile(s, cfg, r.pass).state, r.claimIds);
  }

  // What a receipt request needs, seen before it is made: a reconciliation that goes through, a known miner,
  // claimable rewards of that miner only, and a signature.
  ghost predicate Issuable(s: State, cfg: Config, r: Request)
    requires r.RequestClaimReceipt?
  {
    && Reconcile(s, cfg, r.pass).failure.None?
    && r.minerId in s.miners
    && (forall i :: 0 <= i < |r.claimIds| ==> ClaimableBy(s.rewards, r.claimIds[i], r.minerId))
    && r.signature.Some?
  }

  predicate ClaimableBy(rewards: map<Id, Reward>, c: Id, m: Id) {
    c in rewards && rewards[c].minerId == m && rewards[c].status == Claimable
  }

  lemma DeadlineClaimable(s: State, p: Pass, c: Id, m: Id)
    requires Inv(s)
    ensures ClaimableBy(CheckDeadline(s, p).rewards, c, m) <==> ClaimableBy(s.rewards, c, m)
  {
    hide Inv;
    if s.active.Some? && s.active.value.currentReservationId.Some? {
      var k, reward := HolderIs(s);
    }
  }

  lemma PromoteClaimable(s: State, cfg: Config, p: Pass, c: Id, m: Id)
    requires p.claimId !in s.rewards
    ensures ClaimableBy(Promote(s, cfg, p).state.rewards, c, m) <==> ClaimableBy(s.rewards, c, m)
  {
    hide ScanQueue;
  }

  // No reconciliation makes a reward claimable or takes that back.
  lemma ClaimableStays(s: State, cfg: Config, p: Pass, c: Id, m: Id)
    requires Inv(s) && FreshPass(s, p)
    ensures ClaimableBy(Reconcile(s, cfg, p).state.rewards, c, m) <==> ClaimableBy(s.rewards, c, m)
  {
    hide Inv, CheckDeadline, Promote;
    CheckDeadlineKeeps(s, p);
    DeadlineClaimable(s, p, c, m);
    PromoteClaimable(CheckDeadline(s, p), cfg, p, c, m);
  }

  // A receipt request is answered exactly when it is issuable.
  lemma IssuedIffIssuable(s: State, cfg: Config, r: Request)
    requires Inv(s) && r.RequestClaimReceipt? && FreshPass(s, r.pass)
    ensures Step(s, cfg, r).reply.Returned? <==> Issuable(s, cfg, r)
  {
    hide Inv, Reconcile, TokensOf, RoundsOf, ReceiptObstacle;
    var t := Reconcile(s, cfg, r.pass).state;
    forall i | 0 <= i < |r.claimIds|
      ensures ClaimableBy(t.rewards, r.claimIds[i], r.minerId) <==> ClaimableBy(s.rewards, r.claimIds[i], r.minerId)
    {
      ClaimableStays(s, cfg, r.pass, r.claimIds[i], r.minerId);
    }
  }

  // An issuable request that lists some claim twice.
  ghost predicate ListsRepeat(s: State, cfg: Config, r: Request) {
    r.RequestClaimReceipt? && Issuable(s, cfg, r) && !NoRepeats(r.claimIds)
  }

  ghost predicate SomeListRepeats(s: State, cfg: Config, rs: seq<Request>)
    decreases |rs|
  {
    rs != [] && (ListsRepeat(s, cfg, rs[0]) || SomeListRepeats(Step(s, cfg, rs[0]).state, cfg, rs[1..]))
  }

  ghost predicate SameCover(s: State, t: State) {
    t.receipts.Keys == s.receipts.Keys
    && forall c :: c in s.receipts ==> t.receipts[c].roundIds == s.receipts[c].roundIds
  }

  // Only an answered receipt request adds to what receipts cover.
  lemma OthersCoverTheSame(s: State, cfg: Config, r: Request)
    requires !(r.RequestClaimReceipt? && Step(s, cfg, r).reply.Returned?)
    ensures SameCover(s, Step(s, cfg, r).state)
  {
    hide Reconcile, EnsureRound, ReceiptObstacle, OnSubmitSolution, OnSubmitClaimPayment, JoinRound;
    match r
    case SubmitSolution(_, _, _, _, _, _, _, _, _) => SolutionCover(s, cfg, r);
    case StartMining(m, p, o) =>
      if m in s.miners { JoinCover(SetMiner(s, m, s.miners[m].(mining := true)), cfg, m, p, o); }
    case GetCurrentRound(m, p, o) => if m in s.miners { JoinCover(s, cfg, m, p, o); }
    case SubmitClaimPayment(_, _, _, _, _, _) => PaymentCover(s, cfg, r);
    case _ =>
  }

  lemma EnsureCover(s: State, cfg: Config, p: Pass, o: Opening)
    ensures EnsureRound(s, cfg, p, o).state.receipts == s.receipts
  {
  }

  lemma JoinCover(s: State, cfg: Config, m: Id, p: Pass, o: Opening)
    requires m in s.miners
    ensures JoinRound(s, cfg, m, p, o).state.receipts == s.receipts
  {
    hide EnsureRound;
    EnsureCover(s, cfg, p, o);
  }

  lemma SolutionCover(s: State, cfg: Config, r: Request)
    requires r.SubmitSolution?
    ensures OnSubmitSolution(s, cfg, r).state.receipts == s.receipts
  {
    hide EnsureRound, Reconcile;
    EnsureCover(s, cfg, r.pass, r.opening);
  }

  lemma PaymentCover(s: State, cfg: Config, r: Request)
    requires r.SubmitClaimPayment?
    ensures OnSubmitClaimPayment(s, cfg, r).state.receipts == s.receipts
  {
    hide Reconcile, WithStatus;
  }

  lemma RepeatFreeInsert(receipts: map<Id, Receipt>, c: Id, receipt: Receipt)
    requires c !in receipts
    ensures AllRepeatFree(receipts[c := receipt]) <==> AllRepeatFree(receipts) && NoRepeats(receipt.roundIds)
  {
    assert receipts[c := receipt][c] == receipt;
    assert forall d :: d in receipts ==> receipts[c := receipt][d] == receipts[d];
  }

  lemma StepRepeats(s: State, cfg: Config, r: Request)
    requires Inv(s) && Books(s) && Fresh(s, r)
    ensures AllRepeatFree(Step(s, cfg, r).state.receipts) <==> AllRepeatFree(s.receipts) && !ListsRepeat(s, cfg, r)
  {
    hide Inv, Books, Reconcile, Reconciles, Grows, RoundAdvances, TokensOf, RoundsOf, NoRepeats, Issuable;
    if r.RequestClaimReceipt? {
      IssuedIffIssuable(s, cfg, r);
    }
    if r.RequestClaimReceipt? && Step(s, cfg, r).reply.Returned? {
      KeptByPass(s, cfg, r.pass);
      var t := Reconcile(s, cfg, r.pass).state;
      RoundsRepeatWithClaims(t, r.claimIds);
      var after := Step(s, cfg, r).state.receipts;
      assert after == s.receipts[r.receiptId := after[r.receiptId]];
      RepeatFreeInsert(s.receipts, r.receiptId, after[r.receiptId]);
    } else {
      OthersCoverTheSame(s, cfg, r);
    }
  }

  lemma {:induction false} RunRepeats(s: State, cfg: Config, rs: seq<Request>)
    requires Inv(s) && Books(s) && FreshRun(s, cfg, rs)
    ensures AllRepeatFree(Run(s, cfg, rs).receipts) <==> AllRepeatFree(s.receipts) && !SomeListRepeats(s, cfg, rs)
    decreases |rs|
  {
    hide Inv, Books, Fresh, Step, ListsRepeat, AllRepeatFree, Grows;
    if rs != [] {
      StepKeeps(s, cfg, rs[0]);
      StepRepeats(s, cfg, rs[0]);
      RunRepeats(Step(s, cfg, rs[0]).state, cfg, rs[1..]);
    }
  }

  // The exact condition for the books to balance at the end of a run: no request that can be answered when it
  // comes lists a claim twice.
  lemma BalanceIffNoListRepeats(cfg: Config, rs: seq<Request>)
    requires FreshRun(INITIAL, cfg, rs)
    ensures var s := Run(INITIAL, cfg, rs);
      ReceiptTokens(s.receipts) + 1000 * |ClaimableSet(s.rewards)| == TotalRewards(s)
      <==> !SomeListRepeats(INITIAL, cfg, rs)
  {
    hide Inv, Books, Run, SomeListRepeats, ReceiptTokens, ClaimableSet, TotalRewards;
    InitialOk();
    RunRepeats(INITIAL, cfg, rs);
    ReceiptsBalance(Run(INITIAL, cfg, rs), cfg);
  }

  // ---- Answers that later requests repeat ----

  predicate AcceptedPayment(reply: Reply) {
    reply.Returned? && reply.value.PaymentResult? && reply.value.verdict == Accepted
  }

  // An accepted payment is the stored one, before or after.
  lemma AcceptedIsStored(s: State, cfg: Config, r: Request)
    requires r.SubmitClaimPayment? && Inv(s) && Books(s) && Fresh(s, r)
    requires AcceptedPayment(OnSubmitClaimPayment(s, cfg, r).reply)
    ensures var t := OnSubmitClaimPayment(s, cfg, r).state;
      var reward := RewardByReservation(t, r.payment.reservationId);
      && reward.Some? && IsWon(reward.value.status)
      && reward.value.claimId == t.reservations[r.payment.reservationId]
      && reward.value.paymentTxid.Some? && reward.value.paymentAcceptedAt.Some?
      && OnSubmitClaimPayment(s, cfg, r).reply.value ==
           PaymentResult(Accepted, reward.value.claimId, reward.value.paymentTxid.value,
                         Some(reward.value.paymentProvider), reward.value.paymentAcceptedAt.value)
  {
    hide RoundOk, WinsOk, CountersOk, PendingOk, Books, Reconcile, Reconciles, Grows, RoundAdvances;
    KeptByPass(s, cfg, r.pass);
    var t := Reconcile(s, cfg, r.pass).state;
    assert RewardOk(t, t.reservations[r.payment.reservationId]);
  }

  lemma RewardFiled(s: State, c: Id)
    requires Inv(s) && c in s.rewards
    ensures RewardOk(s, c)
  {
  }

  // A reservation whose reward is won answers every further payment that gets an answer with the
  // payment it was won with, whatever that request carries.
  lemma WonAnswersTheSame(s: State, cfg: Config, r: Request, c: Id)
    requires r.SubmitClaimPayment? && Inv(s) && Books(s) && Fresh(s, r)
    requires r.payment.reservationId in s.reservations && s.reservations[r.payment.reservationId] == c
    requires c in s.rewards && IsWon(s.rewards[c].status)
    ensures var result := OnSubmitClaimPayment(s, cfg, r); result.reply.Returned? ==>
      result.reply.value == PaymentResult(Accepted, c, s.rewards[c].paymentTxid.GetOr(0),
                                          Some(s.rewards[c].paymentProvider), s.rewards[c].paymentAcceptedAt.GetOr(0))
  {
    hide Inv, Books, Reconcile, Reconciles, RoundAdvances, PaymentMismatch;
    KeptByPass(s, cfg, r.pass);
    RewardFiled(s, c);
    var t := Reconcile(s, cfg, r.pass).state;
    assert Advances(s.rewards[c], t.rewards[c]);
  }

  // All accepted answers for one reservation report the same payment, however far apart the requests are.
  lemma AcceptedOnceForAll(s: State, cfg: Config, r: Request, u: State, q: Request)
    requires Reachable(s, cfg) && Fresh(s, r) && r.SubmitClaimPayment? && AcceptedPayment(Step(s, cfg, r).reply)
    requires LeadsTo(Step(s, cfg, r).state, u, cfg) && Fresh(u, q) && q.SubmitClaimPayment?
    requires q.payment.reservationId == r.payment.reservationId && Step(u, cfg, q).reply.Returned?
    ensures Step(u, cfg, q).reply == Step(s, cfg, r).reply
  {
    hide Inv, Books, OnSubmitClaimPayment, RoundAdvances, Fresh;
    ReachableIsKept(s, cfg);
    StepKeeps(s, cfg, r);
    AcceptedIsStored(s, cfg, r);
    var t := Step(s, cfg, r).state;
    var c := t.reservations[r.payment.reservationId];
    LaterIsKept(t, u, cfg);
    assert Advances(t.rewards[c], u.rewards[c]);
    WonAnswersTheSame(u, cfg, q, c);
  }

  // Over any run a reward only moves payment_pending -> claimable -> receipt_issued or payment_pending ->
  // expired, and keeps everything else it was created or won with.
  lemma RewardsOnlyAdvance(s: State, t: State, cfg: Config, c: Id)
    requires Reachable(s, cfg) && LeadsTo(s, t, cfg) && c in s.rewards
    ensures c in t.rewards && Advances(s.rewards[c], t.rewards[c])
    ensures t.rewards[c].status != RewardSubmitted
    ensures s.rewards[c].status == Expired ==> t.rewards[c] == s.rewards[c]
  {
    hide RoundAdvances, RoundOk, PendingOk, WinsOk, CountersOk;
    ReachableIsKept(s, cfg);
    LaterIsKept(s, t, cfg);
    assert RewardOk(s, c) && RewardOk(t, c);
  }

  lemma SubmittedAnswers(u: State, claim: SignedClaim, settled: Option<Settlement>)
    requires Books(u) && claim.claimId in u.submissions
    requires claim.claimId == claim.preparedClaimId == claim.embeddedClaimId
    ensures OnSubmitClaim(u, claim, settled)
         == Result(u, Returned(ClaimSubmitted(claim.claimId, u.submissions[claim.claimId])))
    ensures claim.claimId in u.receipts && u.receipts[claim.claimId].status == Submitted
  {
  }

  lemma SubmissionIsStored(s: State, claim: SignedClaim, settled: Option<Settlement>)
    requires OnSubmitClaim(s, claim, settled).reply.Returned?
    ensures var t := OnSubmitClaim(s, claim, settled).state;
      claim.claimId in t.submissions
      && OnSubmitClaim(s, claim, settled).reply.value == ClaimSubmitted(claim.claimId, t.submissions[claim.claimId])
  {
  }

  // A claim that has been submitted answers every later submission naming it with the first settlement,
  // without asking the provider again and without changing anything.
  lemma SubmittedOnceForAll(s: State, cfg: Config, claim: SignedClaim, settled: Option<Settlement>, u: State,
                            again: SignedClaim, other: Option<Settlement>)
    requires Reachable(s, cfg) && Step(s, cfg, SubmitClaim(claim, settled)).reply.Returned?
    requires LeadsTo(Step(s, cfg, SubmitClaim(claim, settled)).state, u, cfg)
    requires again.claimId == again.preparedClaimId == again.embeddedClaimId == claim.claimId
    ensures Step(u, cfg, SubmitClaim(again, other)) == Result(u, Step(s, cfg, SubmitClaim(claim, settled)).reply)
    ensures again.claimId in u.receipts && u.receipts[again.claimId].status == Submitted
  {
    hide Inv, Books, RoundAdvances, OnSubmitClaim, LeadsTo, Reachable;
    ReachableIsKept(s, cfg);
    SubmissionIsStored(s, claim, settled);
    StepKeeps(s, cfg, SubmitClaim(claim, settled));
    LaterIsKept(Step(s, cfg, SubmitClaim(claim, settled)).state, u, cfg);
    SubmittedAnswers(u, again, other);
  }

  // A provider that fails leaves no trace, and a receipt is marked submitted exactly when a settlement with
  // that transaction is on file.
  lemma SubmissionsMatchReceipts(s: State, cfg: Config, claim: SignedClaim)
    requires Reachable(s, cfg)
    ensures Step(s, cfg, SubmitClaim(claim, None)).state == s
    ensures s.submissions.Keys <= s.receipts.Keys
    ensures forall c :: c in s.receipts ==> (s.receipts[c].status == Submitted <==> c in s.submissions)
    ensures forall c :: c in s.submissions ==> s.receipts[c].lastKnownTxid == Some(s.submissions[c].txid)
  {
    hide Inv;
    ReachableIsKept(s, cfg);
    assert forall c :: c in s.receipts ==> ReceiptOk(s, c);
  }

  // ---- A run whose receipts promise more than was won ----

  const EXAMPLE := Config(300_000, 120_000, 7_000, None)

  function ExamplePass(id: Id): Pass {
    Pass(0, map[1 := Funding(7_000, 0)], 0, 0, id, id)
  }

  // One miner registers, joins a round, solves it, pays, and asks for a receipt that lists its one claim twice.
  const EXAMPLE_RUN := [
    Register(1, 10, 11, 12, 13),
    GetCurrentRound(1, ExamplePass(20), Opening(5, 0)),
    SubmitSolution(1, 5, 0, ExamplePass(21), Opening(6, 0), 0, 30, 0, ExamplePass(22)),
    SubmitClaimPayment(Payment(22, 1, None, 11, 12, 77, None), ExamplePass(23), 0, LocalDev(0), ExamplePass(24), 1),
    RequestClaimReceipt(1, [22, 22], ExamplePass(25), 50, 0, 0, Some(0))
  ]

  const JOINED := Miner(10, 11, 12, 13, false, 0, 0, Some(5), None)
  const OPENED := Round(5, 1, 300_000, 0, None, [], [], None)
  const PENDING := Reward(22, 22, 5, 10, 1000, PaymentPending, 120_000, None, 1, None, 0)

  lemma ExampleOpens()
    ensures var s := Step(INITIAL, EXAMPLE, EXAMPLE_RUN[0]).state;
      Fresh(INITIAL, EXAMPLE_RUN[0]) && Fresh(s, EXAMPLE_RUN[1])
      && Step(s, EXAMPLE, EXAMPLE_RUN[1]).state == State(map[1 := JOINED], map[], map[], map[], map[], 1, Some(OPENED))
  {
  }

  lemma ExampleReserves(s: State)
    requires s == State(map[1 := JOINED], map[], map[], map[], map[], 1, Some(OPENED))
    ensures Fresh(s, EXAMPLE_RUN[2])
    ensures var t := Step(s, EXAMPLE, EXAMPLE_RUN[2]).state;
      && t.miners == map[1 := JOINED.(lastSubmissionId := Some(30))] && t.rewards == map[22 := PENDING]
      && t.reservations == map[22 := 22] && t.receipts == map[] && t.submissions == map[]
      && t.active.Some? && t.active.value.roundId == 5 && t.active.value.currentReservationId == Some(22)
      && t.active.value.winnerMinerId.None? && t.active.value.expiresAt == 300_000 && |t.active.value.candidates| == 1
  {
  }

  lemma ExamplePays(s: State)
    requires s.miners == map[1 := JOINED.(lastSubmissionId := Some(30))] && s.rewards == map[22 := PENDING]
    requires s.reservations == map[22 := 22] && s.receipts == map[] && s.submissions == map[]
    requires s.active.Some? && s.active.value.roundId == 5 && s.active.value.currentReservationId == Some(22)
    requires s.active.value.winnerMinerId.None? && s.active.value.expiresAt == 300_000
    ensures Fresh(s, EXAMPLE_RUN[3])
    ensures var t := Step(s, EXAMPLE, EXAMPLE_RUN[3]).state;
      && t.receipts == map[] && t.submissions == map[] && t.active.None? && t.miners.Keys == {1}
      && t.reservations == map[22 := 22]
      && t.rewards == map[22 := PENDING.(status := Claimable, paymentTxid := Some(77), paymentAcceptedAt := Some(1))]
  {
    assert Reconcile(s, EXAMPLE, ExamplePass(23)).state == s;
  }

  lemma ExampleListsTwice(s: State)
    requires s.receipts == map[] && s.submissions == map[] && s.active.None? && s.miners.Keys == {1}
    requires s.reservations == map[22 := 22]
    requires s.rewards ==
      map[22 := PENDING.(status := Claimable, paymentTxid := Some(77), paymentAcceptedAt := Some(1))]
    ensures Fresh(s, EXAMPLE_RUN[4]) && ListsRepeat(s, EXAMPLE, EXAMPLE_RUN[4])
  {
    var twice := EXAMPLE_RUN[4].claimIds;
    assert twice[0] == twice[1];
  }

  // Receipts do not balance in every run: this one issues a receipt for 2000 tokens on 1000 won.
  lemma BalanceCanFail()
    ensures FreshRun(INITIAL, EXAMPLE, EXAMPLE_RUN)
    ensures var s := Run(INITIAL, EXAMPLE, EXAMPLE_RUN);
      ReceiptTokens(s.receipts) + 1000 * |ClaimableSet(s.rewards)| > TotalRewards(s)
  {
    hide Step, Fresh, ListsRepeat, ReceiptTokens, ClaimableSet, TotalRewards, ExamplePass;
    var rs := EXAMPLE_RUN;
    var s2 := Step(Step(INITIAL, EXAMPLE, rs[0]).state, EXAMPLE, rs[1]).state;
    ExampleOpens();
    ExampleReserves(s2);
    var s3 := Step(s2, EXAMPLE, rs[2]).state;
    ExamplePays(s3);
    var s4 := Step(s3, EXAMPLE, rs[3]).state;
    ExampleListsTwice(s4);
    var s5 := Step(s4, EXAMPLE, rs[4]).state;
    assert rs[4..][0] == rs[4] && rs[3..][0] == rs[3] && rs[2..][0] == rs[2] && rs[1..][0] == rs[1];
    assert rs[4..][1..] == [] && rs[3..][1..] == rs[4..] && rs[2..][1..] == rs[3..] && rs[1..][1..] == rs[2..];
    assert FreshRun(s5, EXAMPLE, []);
    assert FreshRun(s4, EXAMPLE, rs[4..]) && SomeListRepeats(s4, EXAMPLE, rs[4..]);
    assert FreshRun(s3, EXAMPLE, rs[3..]) && SomeListRepeats(s3, EXAMPLE, rs[3..]);
    assert FreshRun(s2, EXAMPLE, rs[2..]) && SomeListRepeats(s2, EXAMPLE, rs[2..]);
    assert FreshRun(INITIAL, EXAMPLE, rs) && SomeListRepeats(INITIAL, EXAMPLE, rs);
    BalanceIffNoListRepeats(EXAMPLE, rs);
    ReceiptsBalance(Run(INITIAL, EXAMPLE, rs), EXAMPLE);
  }
}
