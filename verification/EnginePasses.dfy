// The reconciliations a request runs: the states they start from, and what follows them.
module EnginePasses {
  import opened Common
  import opened EngineTypes
  import opened EngineSpec
  import opened EngineInvariant
  import opened EngineRuns

  // A state in which a request starts a reconciliation, with the readings it gets.
  datatype Start = Start(state: State, pass: Pass)

  function FirstPass(s: State, r: Request): Option<Start> {
    match r
    case StartMining(m, p, _) =>
      if m in s.miners then Some(Start(SetMiner(s, m, s.miners[m].(mining := true)), p)) else None
    case GetCurrentRound(m, p, _) => if m in s.miners then Some(Start(s, p)) else None
    case SubmitSolution(m, _, _, p, _, _, _, _, _) => if m in s.miners then Some(Start(s, p)) else None
    case GetMinerStatus(_, p) => Some(Start(s, p))
    case ListClaimableRewards(_, p) => Some(Start(s, p))
    case RequestClaimReceipt(_, _, p, _, _, _, _) => Some(Start(s, p))
    case SubmitClaimPayment(_, p, _, _, _, _) => Some(Start(s, p))
    case _ => None
  }

  // Once more after an answer that came too late or was queued.
  function PassAfterAnswer(e: State, r: Request): Option<Start>
    requires r.SubmitSolution? && e.active.Some? && r.minerId in e.miners
  {
    var round := e.active.value;
    var s1 := SetMiner(e, r.minerId, e.miners[r.minerId].(currentRoundId := Some(round.roundId)));
    if r.roundId != round.roundId then None
    else if round.expiresAt <= r.expiryCheck then Some(Start(s1, r.again))
    else if round.winnerMinerId.Some? || r.minerId in round.attempted || r.answer != round.expectedAnswer then None
    else
      var s2 := Attempt(s1, r.minerId, r.submissionId);
      Some(Start(Enqueue(s2, r.minerId, r.submissionId, r.receivedAt), r.again))
  }

  // Once more after a payment that expired its reservation.
  function PassAfterPayment(t: State, cfg: Config, r: Request, reward: Reward): Option<Start>
    requires r.SubmitClaimPayment?
  {
    if reward.status != PaymentPending || t.active.None? || t.active.value.roundId != reward.roundId then None
    else if reward.paymentDeadlineAt <= r.deadlineCheck then Some(Start(Expire(t, reward, TimedOut), r.again))
    else if !ValidatePayment(cfg, r.lookup).Returned? || ValidatePayment(cfg, r.lookup).value.0 then None
    else Some(Start(Expire(t, reward, PaymentRejected), r.again))
  }

  function SecondPass(s: State, cfg: Config, r: Request): Option<Start> {
    match r
    case SubmitSolution(_, _, _, _, _, _, _, _, _) =>
      var e := EnsureRound(s, cfg, r.pass, r.opening);
      if r.minerId !in s.miners || e.failure.Some? then None else PassAfterAnswer(e.state, r)
    case SubmitClaimPayment(_, _, _, _, _, _) =>
      var first := Reconcile(s, cfg, r.pass);
      var t, reward := first.state, RewardByReservation(first.state, r.payment.reservationId);
      if first.failure.Some? || reward.None? || reward.value.minerId != r.payment.minerId then None
      else if r.payment.minerId !in t.miners then None
      else if PaymentMismatch(t.miners[r.payment.minerId], r.payment).Some? then None
      else PassAfterPayment(t, cfg, r, reward.value)
    case _ => None
  }

  // A first reconciliation that throws decides the request, and without one nothing but registration, stopping
  // and claim submission changes the state.
  lemma FirstPassDecides(s: State, cfg: Config, r: Request)
    ensures FirstPass(s, r).Some? ==>
      var first := Reconcile(FirstPass(s, r).value.state, cfg, FirstPass(s, r).value.pass);
      first.failure.Some? ==> Step(s, cfg, r) == Result(first.state, Threw(first.failure.value))
    ensures FirstPass(s, r).None? && !r.Register? && !r.StopMining? && !r.SubmitClaim? ==>
      Step(s, cfg, r).state == s
  {
    hide Reconcile, Expire, Enqueue, Attempt, Win, PaysTreasury;
  }

  // The second reconciliation is the last thing a request does, and the readings for it are looked at in no
  // other case.
  lemma SecondPassIsLast(s: State, cfg: Config, r: Request, other: Pass)
    requires r.SubmitSolution? || r.SubmitClaimPayment?
    ensures SecondPass(s, cfg, r).Some? ==>
      var second := SecondPass(s, cfg, r).value;
      Step(s, cfg, r).state == Reconcile(second.state, cfg, second.pass).state
    ensures SecondPass(s, cfg, r).None? ==> Step(s, cfg, r.(again := other)) == Step(s, cfg, r)
  {
    hide Reconcile, Expire, Enqueue, Attempt, Win, PaysTreasury;
  }

  lemma FirstPassKept(s: State, cfg: Config, r: Request)
    requires Inv(s) && Books(s) && Fresh(s, r) && FirstPass(s, r).Some?
    ensures Kept(s, FirstPass(s, r).value.state)
    ensures FreshPass(FirstPass(s, r).value.state, FirstPass(s, r).value.pass)
    ensures FirstPass(s, r).value.state.active == s.active && FirstPass(s, r).value.state.rewards == s.rewards
  {
    hide Inv, Books, Grows, RoundNames, SubmissionNames;
    if r.StartMining? {
      TouchKept(s, r.minerId, s.miners[r.minerId].(mining := true));
    } else {
      LocalKept(s, s);
    }
  }

  lemma SecondPassKept(s: State, cfg: Config, r: Request)
    requires Inv(s) && Books(s) && Fresh(s, r) && SecondPass(s, cfg, r).Some?
    ensures Kept(s, SecondPass(s, cfg, r).value.state)
  {
    hide Inv, Books, Grows, Reconcile, EnsureRound, RoundNames, SubmissionNames, PassAfterAnswer, PassAfterPayment;
    if r.SubmitSolution? {
      EnsureRoundKeeps(s, cfg, r.pass, r.opening);
      var e := EnsureRound(s, cfg, r.pass, r.opening).state;
      PassAfterAnswerKept(e, r);
      KeptTransitive(s, e, SecondPass(s, cfg, r).value.state);
    } else {
      KeptByPass(s, cfg, r.pass);
      var t := Reconcile(s, cfg, r.pass).state;
      PassAfterPaymentKept(t, cfg, r, RewardByReservation(t, r.payment.reservationId).value);
      KeptTransitive(s, t, SecondPass(s, cfg, r).value.state);
    }
  }

  lemma PassAfterAnswerKept(e: State, r: Request)
    requires r.SubmitSolution? && Inv(e) && Books(e) && e.active.Some? && r.minerId in e.miners
    requires r.submissionId !in SubmissionNames(e) && PassAfterAnswer(e, r).Some?
    ensures Kept(e, PassAfterAnswer(e, r).value.state)
  {
    hide Inv, Books, Grows;
    var round := e.active.value;
    var s1 := SetMiner(e, r.minerId, e.miners[r.minerId].(currentRoundId := Some(round.roundId)));
    TouchKept(e, r.minerId, s1.miners[r.minerId]);
    if round.expiresAt > r.expiryCheck {
      EnqueueKept(s1, r.minerId, r.submissionId, r.receivedAt);
      KeptTransitive(e, s1, PassAfterAnswer(e, r).value.state);
    }
  }

  lemma PassAfterPaymentKept(t: State, cfg: Config, r: Request, reward: Reward)
    requires r.SubmitClaimPayment? && Inv(t) && Books(t) && FreshPass(t, r.again)
    requires RewardByReservation(t, r.payment.reservationId) == Some(reward)
    requires PassAfterPayment(t, cfg, r, reward).Some?
    ensures Kept(t, PassAfterPayment(t, cfg, r, reward).value.state)
  {
    hide Inv, Books, Grows, Expire;
    var k, held := PendingIsHeld(t, r.payment.reservationId);
    ExpireKept(t, k, reward, TimedOut, r.again);
    ExpireKept(t, k, reward, PaymentRejected, r.again);
  }

  // The round only moves on, and nothing recorded is lost.
  ghost predicate Follows(s: State, t: State) {
    RoundAdvances(s, t) && Grows(s, t)
  }

  lemma FollowsTransitive(s: State, t: State, u: State)
    requires Follows(s, t) && Follows(t, u)
    ensures Follows(s, u)
  {
    hide RoundAdvances, Grows;
    RoundAdvancesTransitive(s, t, u);
    GrowsTransitive(s, t, u);
  }

  lemma EnsureFollows(s: State, cfg: Config, p: Pass, o: Opening)
    ensures Follows(Reconcile(s, cfg, p).state, EnsureRound(s, cfg, p, o).state)
  {
    hide Reconcile, Grows;
    LocalGrows(Reconcile(s, cfg, p).state, EnsureRound(s, cfg, p, o).state);
  }

  // What follows the first reconciliation, by kind of request.
  lemma AnswerFollows(s: State, cfg: Config, r: Request)
    requires r.SubmitSolution? && Inv(s) && Books(s) && Fresh(s, r) && r.minerId in s.miners
    ensures Follows(Reconcile(s, cfg, r.pass).state, OnSubmitSolution(s, cfg, r).state)
  {
    hide Inv, Books, Grows, Reconcile, RoundNames, SubmissionNames, EnsureRound, AnswerRound, RoundAdvances;
    EnsureFollows(s, cfg, r.pass, r.opening);
    EnsureRoundKeeps(s, cfg, r.pass, r.opening);
    var e := EnsureRound(s, cfg, r.pass, r.opening);
    if e.failure.None? {
      AnswerKept(e.state, cfg, r);
      FollowsTransitive(Reconcile(s, cfg, r.pass).state, e.state, AnswerRound(e.state, cfg, r).state);
    }
  }

  lemma StandsStill(s: State)
    ensures Follows(s, s)
  {
    LocalGrows(s, s);
  }

  // Identifiers drawn for a later pass stay new through an earlier one.
  lemma FreshStays(s: State, t: State, p: Pass, q: Pass)
    requires Reconciles(s, t, p) && FreshPair(s, p, q)
    ensures FreshPass(t, q)
  {
  }

  lemma PaymentFollows(s: State, cfg: Config, r: Request)
    requires r.SubmitClaimPayment? && Inv(s) && Books(s) && Fresh(s, r)
    ensures Follows(Reconcile(s, cfg, r.pass).state, OnSubmitClaimPayment(s, cfg, r).state)
  {
    hide Inv, Books, Grows, Reconcile, Reconciles, RoundAdvances, SettlePayment;
    KeptByPass(s, cfg, r.pass);
    var t := Reconcile(s, cfg, r.pass).state;
    FreshStays(s, t, r.pass, r.again);
    StandsStill(t);
    var reward := RewardByReservation(t, r.payment.reservationId);
    if reward.Some? && reward.value.minerId in t.miners {
      SettleKept(t, cfg, r, reward.value);
    }
  }

  lemma JoinFollows(s: State, cfg: Config, m: Id, p: Pass, o: Opening)
    requires m in s.miners
    ensures Follows(Reconcile(s, cfg, p).state, JoinRound(s, cfg, m, p, o).state)
  {
    hide Reconcile, EnsureRound, Follows;
    EnsureFollows(s, cfg, p, o);
    var e := EnsureRound(s, cfg, p, o);
    if e.failure.None? {
      TouchFollows(e.state, m, e.state.miners[m].(currentRoundId := Some(e.state.active.value.roundId)));
      FollowsTransitive(Reconcile(s, cfg, p).state, e.state, JoinRound(s, cfg, m, p, o).state);
    }
  }

  lemma TouchFollows(s: State, m: Id, miner: Miner)
    requires m in s.miners && SameIdentity(s.miners[m], miner)
    ensures Follows(s, SetMiner(s, m, miner))
  {
    hide Grows;
    LocalGrows(s, SetMiner(s, m, miner));
  }

  lemma ReceiptFollows(s: State, cfg: Config, r: Request)
    requires r.RequestClaimReceipt? && Inv(s) && Fresh(s, r)
    ensures Follows(Reconcile(s, cfg, r.pass).state, OnRequestClaimReceipt(s, cfg, r).state)
  {
    hide Inv, Reconcile, Grows, TokensOf, RoundsOf;
    var t, u := Reconcile(s, cfg, r.pass).state, OnRequestClaimReceipt(s, cfg, r).state;
    StandsStill(t);
    if u != t {
      IssueGrows(t, u, r.claimIds, r.receiptId);
    }
  }

  // Whatever a request does after its first reconciliation, the round it left only moves on and nothing that was
  // recorded then is lost.
  lemma AfterFirstPass(s: State, cfg: Config, r: Request)
    requires Inv(s) && Books(s) && Fresh(s, r) && FirstPass(s, r).Some?
    ensures var first := FirstPass(s, r).value;
      Follows(Reconcile(first.state, cfg, first.pass).state, Step(s, cfg, r).state)
  {
    hide Inv, Books, Fresh, Reconcile, JoinRound, OnSubmitSolution, OnSubmitClaimPayment, OnRequestClaimReceipt;
    hide Follows;
    var first := FirstPass(s, r).value.state;
    match r
    case StartMining(m, p, o) => JoinFollows(first, cfg, m, p, o);
    case GetCurrentRound(m, p, o) => JoinFollows(first, cfg, m, p, o);
    case SubmitSolution(_, _, _, _, _, _, _, _, _) => AnswerFollows(s, cfg, r);
    case SubmitClaimPayment(_, _, _, _, _, _) => PaymentFollows(s, cfg, r);
    case RequestClaimReceipt(_, _, _, _, _, _, _) => ReceiptFollows(s, cfg, r);
    case GetMinerStatus(_, p) => StandsStill(Reconcile(first, cfg, p).state);
    case ListClaimableRewards(_, p) => StandsStill(Reconcile(first, cfg, p).state);
  }
}
