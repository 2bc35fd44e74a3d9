// An expired round comes to an end: nobody can join it any more, and each reconciliation that sees the
// payment deadline pass and gets its balance lookups answered brings it one candidate closer to being dropped.
module EngineTermination {
  import opened Common
  import opened EngineTypes
  import opened EngineSpec
  import opened EngineInvariant
  import opened EngineRuns
  import opened EnginePasses

  function QueuedCount(queue: seq<Candidate>): (n: nat)
    ensures n <= |queue|
    ensures n == 0 <==> !HasQueued(queue)
  {
    if queue == [] then 0
    else
      var last := queue[|queue| - 1];
      assert HasQueued(queue) <==> HasQueued(queue[..|queue| - 1]) || last.status == Queued by {
        assert forall i :: 0 <= i < |queue| - 1 ==> queue[..|queue| - 1][i] == queue[i];
      }
      QueuedCount(queue[..|queue| - 1]) + if last.status == Queued then 1 else 0
  }

  // Twice the waiting candidates, plus one for a reservation in progress, plus one for the round itself.
  function Remaining(s: State): nat {
    if s.active.None? then 0
    else 1 + 2 * QueuedCount(s.active.value.candidates) + if s.active.value.currentReservationId.Some? then 1 else 0
  }

  // A pass after the round's expiry and after the current payment deadline, with every lookup answered.
  ghost predicate Drives(s: State, p: Pass) {
    && FreshPass(s, p)
    && s.active.Some?
    && s.active.value.expiresAt <= p.closeCheck
    && (forall c :: c in s.active.value.candidates && c.status == Queued ==> c.minerId in p.balances)
    && (s.active.value.currentReservationId.Some? ==>
          var reward := RewardByReservation(s, s.active.value.currentReservationId.value);
          reward.Some? ==> reward.value.paymentDeadlineAt <= p.deadlineCheck)
  }

  // Fewer candidates wait when nobody starts to wait and somebody stops.
  lemma {:induction false} FewerWait(before: seq<Candidate>, after: seq<Candidate>)
    requires |before| == |after|
    requires forall i :: 0 <= i < |before| ==> (after[i].status == Queued ==> before[i].status == Queued)
    ensures QueuedCount(after) <= QueuedCount(before)
    ensures (exists i :: 0 <= i < |before| && before[i].status == Queued && after[i].status != Queued) ==>
      QueuedCount(after) < QueuedCount(before)
  {
    if before != [] {
      var b, a := before[..|before| - 1], after[..|after| - 1];
      FewerWait(b, a);
      if i :| 0 <= i < |before| && before[i].status == Queued && after[i].status != Queued {
        if i < |b| { assert b[i].status == Queued && a[i].status != Queued; }
      }
    }
  }

  // After the first phase of a driving pass nobody holds a reservation, and as many wait as before.
  lemma DeadlineFrees(s: State, p: Pass)
    requires Inv(s) && Drives(s, p)
    ensures var t := CheckDeadline(s, p);
      && t.active.Some? && t.active.value.currentReservationId.None? && t.active.value.winnerMinerId.None?
      && t.active.value.expiresAt == s.active.value.expiresAt
      && QueuedCount(t.active.value.candidates) == QueuedCount(s.active.value.candidates)
      && (forall c :: c in t.active.value.candidates && c.status == Queued ==>
            c.minerId in p.balances && c.minerId in s.miners)
  {
    hide WinsOk, CountersOk, PendingOk, Filed, Holder, FirstComeFirstServed, Distinct, Linked;
    var t := CheckDeadline(s, p);
    if s.active.value.currentReservationId.Some? {
      var k, reward := HolderIs(s);
      var q, r := s.active.value.candidates, t.active.value.candidates;
      assert r == q[k := q[k].(status := TimedOut)];
      FewerWait(q, r);
      FewerWait(r, q);
    }
  }

  // The second phase then serves somebody or finds that nobody can pay.
  lemma PromoteServes(s: State, cfg: Config, p: Pass)
    requires s.active.Some? && s.active.value.currentReservationId.None? && s.active.value.winnerMinerId.None?
    requires forall c :: c in s.active.value.candidates && c.status == Queued ==>
      c.minerId in p.balances && c.minerId in s.miners
    ensures var r := Promote(s, cfg, p); r.failure.None? && r.state.active.value.expiresAt == s.active.value.expiresAt
    ensures var q := Promote(s, cfg, p).state.active.value;
      if q.currentReservationId.Some? then QueuedCount(q.candidates) < QueuedCount(s.active.value.candidates)
      else QueuedCount(q.candidates) == 0
  {
    var queue := s.active.value.candidates;
    var fee := cfg.requiredClaimFeeSats;
    ScanIs(queue, 0, s.miners.Keys, fee, p.balances);
    var scan := ScanQueue(queue, 0, s.miners.Keys, fee, p.balances);
    assert !scan.ScanFailed?;
    if scan.Chosen? {
      FewerWait(queue, scan.queue[scan.at := Reserve(scan.queue[scan.at], cfg, p)]);
    }
  }

  lemma PassProgress(s: State, cfg: Config, p: Pass)
    requires Inv(s) && Drives(s, p)
    ensures Reconcile(s, cfg, p).failure.None?
    ensures var t := Reconcile(s, cfg, p).state;
      t.active.None?
      || (t.active.value.currentReservationId.Some?
          && QueuedCount(t.active.value.candidates) < QueuedCount(s.active.value.candidates))
    ensures Remaining(Reconcile(s, cfg, p).state) < Remaining(s)
  {
    hide Inv;
    DeadlineFrees(s, p);
    PromoteServes(CheckDeadline(s, p), cfg, p);
  }

  ghost predicate Driven(s: State, cfg: Config, passes: seq<Pass>)
    decreases |passes|
  {
    passes == [] || s.active.None?
    || (Drives(s, passes[0]) && Driven(Reconcile(s, cfg, passes[0]).state, cfg, passes[1..]))
  }

  ghost function AfterPasses(s: State, cfg: Config, passes: seq<Pass>): State
    decreases |passes|
  {
    if passes == [] then s else AfterPasses(Reconcile(s, cfg, passes[0]).state, cfg, passes[1..])
  }

  lemma {:induction false} NothingToDo(s: State, cfg: Config, passes: seq<Pass>)
    requires s.active.None?
    ensures AfterPasses(s, cfg, passes).active.None?
    decreases |passes|
  {
    if passes != [] {
      NothingToDo(Reconcile(s, cfg, passes[0]).state, cfg, passes[1..]);
    }
  }

  // With k candidates waiting, k + 1 driving passes drop an expired round.
  lemma {:induction false} ExpiredRoundEnds(s: State, cfg: Config, passes: seq<Pass>)
    requires Inv(s) && Driven(s, cfg, passes)
    requires s.active.Some? ==> |passes| > QueuedCount(s.active.value.candidates)
    ensures AfterPasses(s, cfg, passes).active.None?
    decreases |passes|
  {
    hide Inv, Reconcile;
    if s.active.None? {
      NothingToDo(s, cfg, passes);
    } else {
      var t := Reconcile(s, cfg, passes[0]).state;
      PassProgress(s, cfg, passes[0]);
      ReconcileKeeps(s, cfg, passes[0]);
      ExpiredRoundEnds(t, cfg, passes[1..]);
    }
  }

  // An answer that arrives after the round's expiry never joins its queue.
  lemma NobodyJoinsExpired(s: State, cfg: Config, r: Request)
    requires r.SubmitSolution? && Inv(s) && Books(s) && Fresh(s, r)
    requires s.active.Some? && s.active.value.expiresAt <= r.expiryCheck
    ensures var t := OnSubmitSolution(s, cfg, r).state;
      t.active.Some? && t.roundCounter == s.roundCounter ==>
        |t.active.value.candidates| == |s.active.value.candidates|
  {
    hide Inv, Books, Grows, Reconciles, Reconcile, RoundNames, SubmissionNames;
    if r.minerId in s.miners {
      SameLength(s, cfg, r.pass);
      KeptByPass(s, cfg, r.pass);
      var e := EnsureRound(s, cfg, r.pass, r.opening);
      EnsureRoundKeeps(s, cfg, r.pass, r.opening);
      if e.failure.None? {
        var miner := e.state.miners[r.minerId].(currentRoundId := Some(e.state.active.value.roundId));
        var s1 := SetMiner(e.state, r.minerId, miner);
        SameLength(s1, cfg, r.again);
      }
    }
  }

  ghost predicate SameTerms(s: State, t: State) {
    t.active.None? || (s.active.Some? && |t.active.value.candidates| == |s.active.value.candidates|
                       && t.active.value.expiresAt == s.active.value.expiresAt)
  }

  lemma DeadlineSameTerms(s: State, p: Pass)
    ensures SameTerms(s, CheckDeadline(s, p))
  {
  }

  lemma PromoteSameTerms(s: State, cfg: Config, p: Pass)
    ensures SameTerms(s, Promote(s, cfg, p).state)
  {
  }

  // A reconciliation neither adds nor removes candidates, and moves no deadline of the round.
  lemma SameLength(s: State, cfg: Config, p: Pass)
    ensures SameTerms(s, Reconcile(s, cfg, p).state)
  {
    hide CheckDeadline, Promote;
    DeadlineSameTerms(s, p);
    PromoteSameTerms(CheckDeadline(s, p), cfg, p);
  }

  // ---- Runs of requests ----

  lemma JoinSameTerms(s: State, cfg: Config, m: Id, p: Pass, o: Opening)
    requires m in s.miners
    ensures var t := JoinRound(s, cfg, m, p, o).state; t.roundCounter == s.roundCounter ==> SameTerms(s, t)
  {
    hide Reconcile;
    SameLength(s, cfg, p);
  }

  lemma PaymentSameTerms(s: State, cfg: Config, r: Request)
    requires r.SubmitClaimPayment?
    ensures SameTerms(s, OnSubmitClaimPayment(s, cfg, r).state)
  {
    hide Reconcile, SettlePayment;
    SameLength(s, cfg, r.pass);
    var t := Reconcile(s, cfg, r.pass).state;
    var reward := RewardByReservation(t, r.payment.reservationId);
    if reward.Some? && reward.value.minerId in t.miners {
      SettleSameTerms(t, cfg, r, reward.value);
    }
  }

  lemma SettleSameTerms(s: State, cfg: Config, r: Request, reward: Reward)
    requires r.SubmitClaimPayment? && reward.minerId in s.miners
    ensures SameTerms(s, SettlePayment(s, cfg, r, reward).state)
  {
    hide Reconcile, ValidatePayment;
    if s.active.Some? {
      SameLength(Expire(s, reward, TimedOut), cfg, r.again);
      SameLength(Expire(s, reward, PaymentRejected), cfg, r.again);
    }
  }

  // Only an answer can lengthen the queue.
  lemma OthersSameTerms(s: State, cfg: Config, r: Request)
    requires !r.SubmitSolution?
    ensures var t := Step(s, cfg, r).state; t.roundCounter == s.roundCounter ==> SameTerms(s, t)
  {
    hide Reconcile, JoinRound, OnSubmitClaimPayment;
    match r
    case StartMining(m, p, o) =>
      if m in s.miners { JoinSameTerms(SetMiner(s, m, s.miners[m].(mining := true)), cfg, m, p, o); }
    case GetCurrentRound(m, p, o) => if m in s.miners { JoinSameTerms(s, cfg, m, p, o); }
    case GetMinerStatus(_, p) => SameLength(s, cfg, p);
    case ListClaimableRewards(_, p) => SameLength(s, cfg, p);
    case RequestClaimReceipt(_, _, p, _, _, _, _) => SameLength(s, cfg, p);
    case SubmitClaimPayment(_, _, _, _, _, _) => PaymentSameTerms(s, cfg, r);
    case _ =>
  }

  // The round that is active in s is no longer active in t.
  predicate Dropped(s: State, t: State) {
    t.active.None? || t.roundCounter > s.roundCounter
  }

  // A request seen after the given expiry, as far as it could still join the queue.
  predicate Late(expiresAt: Time, r: Request) {
    r.SubmitSolution? ==> expiresAt <= r.expiryCheck
  }

  // A request whose first reconciliation is a driving pass.
  ghost predicate DrivingRequest(s: State, r: Request) {
    FirstPass(s, r).Some? && Drives(FirstPass(s, r).value.state, FirstPass(s, r).value.pass)
  }

  function Waiting(s: State): nat {
    if s.active.None? then 0 else QueuedCount(s.active.value.candidates)
  }

  // Nobody joins between s and t, so no more wait.
  lemma WaitingShrinks(s: State, t: State)
    requires RoundAdvances(s, t) && s.active.Some? && t.active.Some? && s.roundCounter == t.roundCounter
    requires |t.active.value.candidates| == |s.active.value.candidates|
    ensures Waiting(t) <= Waiting(s)
  {
    FewerWait(s.active.value.candidates, t.active.value.candidates);
  }

  // A late request leaves no more candidates waiting than before, and a driving one fewer, or none at all
  // because the round is gone.
  lemma LateStep(s: State, cfg: Config, r: Request)
    requires Inv(s) && Books(s) && Fresh(s, r) && s.active.Some? && Late(s.active.value.expiresAt, r)
    ensures var t := Step(s, cfg, r).state;
      Dropped(s, t)
      || (t.roundCounter == s.roundCounter && t.active.value.expiresAt == s.active.value.expiresAt
          && Waiting(t) <= Waiting(s) && (DrivingRequest(s, r) ==> Waiting(t) < Waiting(s)))
  {
    hide Inv, Books, Fresh, Step, Grows, Drives, Reconcile, QueueAdvances;
    var t := Step(s, cfg, r).state;
    StepKeeps(s, cfg, r);
    if !Dropped(s, t) {
      LateSameLength(s, cfg, r);
      WaitingShrinks(s, t);
    }
    if DrivingRequest(s, r) {
      var first := FirstPass(s, r).value;
      FirstPassKept(s, cfg, r);
      PassProgress(first.state, cfg, first.pass);
      SameLength(first.state, cfg, first.pass);
      AfterFirstPass(s, cfg, r);
      if !Dropped(s, t) {
        WaitingShrinks(Reconcile(first.state, cfg, first.pass).state, t);
      }
    }
  }

  lemma LateSameLength(s: State, cfg: Config, r: Request)
    requires Inv(s) && Books(s) && Fresh(s, r) && s.active.Some? && Late(s.active.value.expiresAt, r)
    ensures var t := Step(s, cfg, r).state;
      t.active.Some? && t.roundCounter == s.roundCounter ==> |t.active.value.candidates| == |s.active.value.candidates|
  {
    hide Inv, Books, Fresh, OnSubmitSolution;
    if r.SubmitSolution? {
      NobodyJoinsExpired(s, cfg, r);
    } else {
      OthersSameTerms(s, cfg, r);
    }
  }

  // How many requests of a run are driving ones, each seen from the state it meets.
  ghost function DrivingCount(s: State, cfg: Config, rs: seq<Request>): nat
    decreases |rs|
  {
    if rs == [] then 0
    else (if DrivingRequest(s, rs[0]) then 1 else 0) + DrivingCount(Step(s, cfg, rs[0]).state, cfg, rs[1..])
  }

  // Once a round has expired with k candidates waiting, every run with k + 1 driving requests ends without
  // it, whatever other requests come in between.
  lemma {:induction false} ExpiredRoundEndsInRun(s: State, cfg: Config, rs: seq<Request>)
    requires Inv(s) && Books(s) && FreshRun(s, cfg, rs) && s.active.Some?
    requires forall r :: r in rs ==> Late(s.active.value.expiresAt, r)
    requires DrivingCount(s, cfg, rs) > Waiting(s)
    ensures Dropped(s, Run(s, cfg, rs))
    decreases |rs|
  {
    hide Inv, Books, Fresh, Step, Late, DrivingRequest, Waiting, Grows;
    var t := Step(s, cfg, rs[0]).state;
    StepKeeps(s, cfg, rs[0]);
    LateStep(s, cfg, rs[0]);
    RunKeeps(t, cfg, rs[1..]);
    if !Dropped(s, t) {
      ExpiredRoundEndsInRun(t, cfg, rs[1..]);
    }
  }
}
