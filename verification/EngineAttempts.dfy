// Answers to puzzles: which answer gets which reply, and that a miner has one attempt per round.
module EngineAttempts {
  import opened Common
  import opened EngineTypes
  import opened EngineSpec
  import opened EngineInvariant
  import opened EngineRuns
  import opened EngineTheorems
  import opened EngineTermination

  // The state in which an answer meets its round.
  function Met(s: State, cfg: Config, r: Request): State
    requires r.SubmitSolution?
  {
    EnsureRound(s, cfg, r.pass, r.opening).state
  }

  ghost predicate Answers(s: State, cfg: Config, r: Request) {
    && Reachable(s, cfg) && Fresh(s, r) && r.SubmitSolution? && r.minerId in s.miners
    && EnsureRound(s, cfg, r.pass, r.opening).failure.None?
  }

  // A reply that takes the miner's attempt.
  predicate TakesAttempt(reply: Reply) {
    reply.Returned? && (reply.value.InvalidAnswer? || reply.value.ValidAnswer?)
  }

  // The miner's record after an answer: it is in this round, and an attempt names its submission.
  predicate Noted(e: State, t: State, m: Id, attempt: Option<Id>)
    requires e.active.Some? && m in e.miners
  {
    var miner := e.miners[m].(currentRoundId := Some(e.active.value.roundId));
    t.miners == e.miners[m := if attempt.Some? then miner.(lastSubmissionId := attempt) else miner]
  }

  lemma StepIsAnswer(s: State, cfg: Config, r: Request)
    requires Answers(s, cfg, r)
    ensures r.SubmitSolution?
    ensures Met(s, cfg, r).active.Some? && r.minerId in Met(s, cfg, r).miners
    ensures Step(s, cfg, r) == AnswerRound(Met(s, cfg, r), cfg, r)
    ensures Inv(Met(s, cfg, r)) && Books(Met(s, cfg, r)) && Met(s, cfg, r).active.value.winnerMinerId.None?
    ensures FreshPass(Met(s, cfg, r), r.again) && r.submissionId !in SubmissionNames(Met(s, cfg, r))
  {
    hide Inv, Books, Reachable, EnsureRound, Grows, RoundAdvances, AnswerRound;
    ReachableIsKept(s, cfg);
    EnsureRoundKeeps(s, cfg, r.pass, r.opening);
    NobodyWonYet(Met(s, cfg, r));
  }

  // An answer to another round than the active one is told so, without taking an attempt.
  lemma AnswerToOtherRound(s: State, cfg: Config, r: Request)
    requires Answers(s, cfg, r) && r.roundId != Met(s, cfg, r).active.value.roundId
    ensures Step(s, cfg, r).reply == Returned(RoundMismatch(r.submissionId))
    ensures Noted(Met(s, cfg, r), Step(s, cfg, r).state, r.minerId, None)
    ensures Step(s, cfg, r).state.active == Met(s, cfg, r).active
  {
    hide Inv, Answers, Met, Step, Reconcile;
    StepIsAnswer(s, cfg, r);
  }

  // A late answer is told so, unless the reconciliation it triggers throws.
  lemma AnswerTooLate(s: State, cfg: Config, r: Request)
    requires Answers(s, cfg, r) && r.roundId == Met(s, cfg, r).active.value.roundId
    requires Met(s, cfg, r).active.value.expiresAt <= r.expiryCheck
    ensures Step(s, cfg, r).reply in
      {Returned(RoundExpired(r.submissionId)), Threw(ProviderFailed), Threw(UnknownMiner)}
    ensures Noted(Met(s, cfg, r), Step(s, cfg, r).state, r.minerId, None)
  {
    hide Inv, Answers, Met, Step, Reconcile;
    StepIsAnswer(s, cfg, r);
    var e := Met(s, cfg, r);
    var miner := e.miners[r.minerId].(currentRoundId := Some(e.active.value.roundId));
    PassErrors(SetMiner(e, r.minerId, miner), cfg, r.again);
  }

  // A second answer in time is refused, whatever it is.
  lemma AnswerAgain(s: State, cfg: Config, r: Request)
    requires Answers(s, cfg, r) && r.roundId == Met(s, cfg, r).active.value.roundId
    requires r.expiryCheck < Met(s, cfg, r).active.value.expiresAt
    requires r.minerId in Met(s, cfg, r).active.value.attempted
    ensures Step(s, cfg, r).reply == Returned(AttemptLimitReached(r.submissionId))
    ensures Noted(Met(s, cfg, r), Step(s, cfg, r).state, r.minerId, None)
    ensures Step(s, cfg, r).state.active == Met(s, cfg, r).active
  {
    hide Inv, Answers, Met, Step, Reconcile;
    StepIsAnswer(s, cfg, r);
  }

  // A first answer in time takes the attempt, right or wrong; a wrong one is told so and does not join the queue.
  lemma WrongAnswer(s: State, cfg: Config, r: Request)
    requires Answers(s, cfg, r) && r.roundId == Met(s, cfg, r).active.value.roundId
    requires r.expiryCheck < Met(s, cfg, r).active.value.expiresAt
    requires r.minerId !in Met(s, cfg, r).active.value.attempted
    requires r.answer != Met(s, cfg, r).active.value.expectedAnswer
    ensures Step(s, cfg, r).reply == Returned(InvalidAnswer(r.submissionId))
    ensures Noted(Met(s, cfg, r), Step(s, cfg, r).state, r.minerId, Some(r.submissionId))
    ensures var round := Met(s, cfg, r).active.value;
      Step(s, cfg, r).state.active == Some(round.(attempted := round.attempted + [r.minerId]))
    ensures Step(s, cfg, r).state.roundCounter == Met(s, cfg, r).roundCounter
  {
    hide Inv, Answers, Met, Step, Reconcile;
    StepIsAnswer(s, cfg, r);
  }

  // A right one joins the end of the queue with the time it was received.
  lemma RightAnswer(s: State, cfg: Config, r: Request)
    requires Answers(s, cfg, r) && r.roundId == Met(s, cfg, r).active.value.roundId
    requires r.expiryCheck < Met(s, cfg, r).active.value.expiresAt
    requires r.minerId !in Met(s, cfg, r).active.value.attempted
    requires r.answer == Met(s, cfg, r).active.value.expectedAnswer
    ensures var reply := Step(s, cfg, r).reply;
      if reply.Returned? then reply.value.ValidAnswer? && reply.value.submissionId == r.submissionId
      else reply.error == ProviderFailed || reply.error == UnknownMiner
    ensures Noted(Met(s, cfg, r), Step(s, cfg, r).state, r.minerId, Some(r.submissionId))
    ensures var e, t := Met(s, cfg, r), Step(s, cfg, r).state;
      && t.roundCounter == e.roundCounter
      && (t.active.Some? ==>
            && r.minerId in t.active.value.attempted
            && var before, after := e.active.value.candidates, t.active.value.candidates;
            |after| == |before| + 1
            && after[|before|].minerId == r.minerId && after[|before|].receivedAt == r.receivedAt)
  {
    hide Inv, Answers, Met, Step, AnswerRound;
    StepIsAnswer(s, cfg, r);
    QueuedThenPass(Met(s, cfg, r), cfg, r);
  }

  // The queue with the new candidate in it.
  function Joined(e: State, r: Request): State
    requires r.SubmitSolution? && e.active.Some? && r.minerId in e.miners
  {
    var miner := e.miners[r.minerId].(currentRoundId := Some(e.active.value.roundId));
    Enqueue(Attempt(SetMiner(e, r.minerId, miner), r.minerId, r.submissionId), r.minerId, r.submissionId, r.receivedAt)
  }

  lemma JoinedIsKept(e: State, r: Request)
    requires r.SubmitSolution? && Inv(e) && Books(e) && e.active.Some? && r.minerId in e.miners
    requires r.minerId !in e.active.value.attempted && r.submissionId !in SubmissionNames(e)
    ensures Inv(Joined(e, r)) && Books(Joined(e, r))
    ensures Joined(e, r).rewards == e.rewards && Joined(e, r).reservations == e.reservations
  {
    hide Inv, Books, Grows, RoundAdvances;
    var s1 := SetMiner(e, r.minerId, e.miners[r.minerId].(currentRoundId := Some(e.active.value.roundId)));
    TouchKept(e, r.minerId, s1.miners[r.minerId]);
    EnqueueKept(s1, r.minerId, r.submissionId, r.receivedAt);
  }

  lemma QueuedThenPass(e: State, cfg: Config, r: Request)
    requires r.SubmitSolution? && Inv(e) && Books(e) && e.active.Some? && r.minerId in e.miners
    requires r.roundId == e.active.value.roundId && r.expiryCheck < e.active.value.expiresAt
    requires e.active.value.winnerMinerId.None? && r.answer == e.active.value.expectedAnswer
    requires r.minerId !in e.active.value.attempted
    requires FreshPass(e, r.again) && r.submissionId !in SubmissionNames(e)
    ensures var reply := AnswerRound(e, cfg, r).reply;
      if reply.Returned? then reply.value.ValidAnswer? && reply.value.submissionId == r.submissionId
      else reply.error == ProviderFailed || reply.error == UnknownMiner
    ensures Noted(e, AnswerRound(e, cfg, r).state, r.minerId, Some(r.submissionId))
    ensures var t := AnswerRound(e, cfg, r).state;
      && t.roundCounter == e.roundCounter
      && (t.active.Some? ==>
            && r.minerId in t.active.value.attempted
            && var before, after := e.active.value.candidates, t.active.value.candidates;
            |after| == |before| + 1
            && after[|before|].minerId == r.minerId && after[|before|].receivedAt == r.receivedAt)
  {
    hide Inv, Books, Reconcile, Grows, SubmissionNames;
    JoinedIsKept(e, r);
    var s3 := Joined(e, r);
    var last := |e.active.value.candidates|;
    PassErrors(s3, cfg, r.again);
    KeptByPass(s3, cfg, r.again);
    SameLength(s3, cfg, r.again);
    RoundSeen(s3, cfg, r.again);
    assert AnswerRound(e, cfg, r).state == Reconcile(s3, cfg, r.again).state;
    assert s3.active.value.attempted[|e.active.value.attempted|] == r.minerId;
    var seen := Reconcile(s3, cfg, r.again).round.value;
    assert CandidateAdvances(s3.active.value.candidates[last], seen.candidates[last]);
  }

  // A reply that takes an attempt was given to a miner that had none in the round, and leaves it with one: while
  // the round lasts its name is on the list, and its record names the submission.
  lemma AttemptIsTaken(s: State, cfg: Config, r: Request)
    requires Reachable(s, cfg) && Fresh(s, r) && r.SubmitSolution? && TakesAttempt(Step(s, cfg, r).reply)
    ensures Answers(s, cfg, r) && r.minerId !in Met(s, cfg, r).active.value.attempted
    ensures var t := Step(s, cfg, r).state;
      && t.roundCounter == Met(s, cfg, r).roundCounter
      && r.minerId in t.miners && t.miners[r.minerId].lastSubmissionId == Some(r.submissionId)
      && (t.active.Some? ==> r.minerId in t.active.value.attempted)
      && (Step(s, cfg, r).reply.value.InvalidAnswer? ==> t.active.Some?)
    ensures Step(s, cfg, r).reply.value.ValidAnswer? <==> r.answer == Met(s, cfg, r).active.value.expectedAnswer
  {
    hide Reachable, Fresh, EnsureRound, Reconcile, AnswerRound, Inv;
    if r.minerId in s.miners && EnsureRound(s, cfg, r.pass, r.opening).failure.None? {
      var round := Met(s, cfg, r).active.value;
      if r.roundId != round.roundId {
        AnswerToOtherRound(s, cfg, r);
      } else if round.expiresAt <= r.expiryCheck {
        AnswerTooLate(s, cfg, r);
      } else if r.minerId in round.attempted {
        AnswerAgain(s, cfg, r);
      } else if r.answer != round.expectedAnswer {
        WrongAnswer(s, cfg, r);
      } else {
        RightAnswer(s, cfg, r);
      }
    }
  }

  // One attempt per miner and round, over any run: after a reply that took the attempt, no later answer of the
  // miner takes one in the same round, and every later one to it in time is told that the limit is reached.
  lemma OneAttemptPerRound(s: State, cfg: Config, r: Request, u: State, q: Request)
    requires Reachable(s, cfg) && Fresh(s, r) && r.SubmitSolution? && TakesAttempt(Step(s, cfg, r).reply)
    requires LeadsTo(Step(s, cfg, r).state, u, cfg) && Fresh(u, q)
    requires q.SubmitSolution? && q.minerId == r.minerId
    requires EnsureRound(u, cfg, q.pass, q.opening).failure.None?
    requires Met(u, cfg, q).roundCounter == Met(s, cfg, r).roundCounter
    ensures !TakesAttempt(Step(u, cfg, q).reply)
    ensures var round := Met(u, cfg, q).active.value;
      q.roundId == round.roundId && q.expiryCheck < round.expiresAt ==>
      Step(u, cfg, q).reply == Returned(AttemptLimitReached(q.submissionId))
  {
    hide Inv, Books, Reachable, Grows, EnsureRound, Reconcile, Step, LeadsTo;
    hide QueueAdvances, RoundNames, SubmissionNames;
    ReachableIsKept(s, cfg);
    AttemptIsTaken(s, cfg, r);
    var t := Step(s, cfg, r).state;
    StepKeeps(s, cfg, r);
    ReachableStep(s, cfg, r);
    LaterIsReachable(t, u, cfg);
    LaterIsKept(t, u, cfg);
    EnsureRoundKeeps(u, cfg, q.pass, q.opening);
    RoundAdvancesTransitive(t, u, Met(u, cfg, q));
    KnownLater(t, u, r.minerId);
    assert r.minerId in Met(u, cfg, q).active.value.attempted;
    if TakesAttempt(Step(u, cfg, q).reply) {
      AttemptIsTaken(u, cfg, q);
    }
    if q.roundId == Met(u, cfg, q).active.value.roundId && q.expiryCheck < Met(u, cfg, q).active.value.expiresAt {
      AnswerAgain(u, cfg, q);
    }
  }

  lemma KnownLater(s: State, t: State, m: Id)
    requires Grows(s, t) && m in s.miners
    ensures m in t.miners
  {
  }
}
