// What one reconciliation does: whom it leaves alone, times out, gives a reservation or drops, and when it fails.
module EngineReservations {
  import opened Common
  import opened EngineTypes
  import opened EngineSpec
  import opened EngineInvariant
  import opened EngineRuns
  import opened EnginePasses
  import opened EngineTheorems
  import opened EngineTermination

  // A reconciliation whose clock reads a time before the payment deadline changes nothing at all.
  lemma HolderIsKept(s: State, cfg: Config, p: Pass, k: nat, reward: Reward)
    requires Inv(s) && Holds(s, k, reward) && p.deadlineCheck < reward.paymentDeadlineAt
    ensures Reconcile(s, cfg, p) == Reconciled(s, s.active, None)
  {
    hide Inv;
    NobodyWonYet(s);
  }

  // One whose clock reads the deadline or later times the holder out, whatever else it does.
  lemma HolderTimesOut(s: State, cfg: Config, p: Pass, k: nat, reward: Reward)
    requires Inv(s) && FreshPass(s, p) && Holds(s, k, reward) && reward.paymentDeadlineAt <= p.deadlineCheck
    ensures var r := Reconcile(s, cfg, p);
      && reward.claimId in r.state.rewards && r.state.rewards[reward.claimId] == reward.(status := Expired)
      && r.round.Some? && k < |r.round.value.candidates|
      && r.round.value.candidates[k] == s.active.value.candidates[k].(status := TimedOut)
  {
    hide Inv, Promote, Close;
    DeadlineEnds(s, p, k, reward);
    PromoteSpares(CheckDeadline(s, p), cfg, p, k);
    CheckDeadlineKeeps(s, p);
    CloseSpares(Promote(CheckDeadline(s, p), cfg, p).state, p);
  }

  lemma DeadlineEnds(s: State, p: Pass, k: nat, reward: Reward)
    requires Holds(s, k, reward) && reward.paymentDeadlineAt <= p.deadlineCheck
    ensures var t := CheckDeadline(s, p);
      && t.rewards == s.rewards[reward.claimId := reward.(status := Expired)]
      && t.active.value.candidates ==
           s.active.value.candidates[k := s.active.value.candidates[k].(status := TimedOut)]
  {
  }

  // Promotion touches only waiting candidates and only a new reward.
  lemma PromoteSpares(s: State, cfg: Config, p: Pass, k: nat)
    requires s.active.Some? && k < |s.active.value.candidates| && s.active.value.candidates[k].status != Queued
    ensures var t := Promote(s, cfg, p).state;
      && k < |t.active.value.candidates| && t.active.value.candidates[k] == s.active.value.candidates[k]
    ensures forall c :: c in s.rewards && c != p.claimId ==>
      c in Promote(s, cfg, p).state.rewards && Promote(s, cfg, p).state.rewards[c] == s.rewards[c]
  {
    ScanIs(s.active.value.candidates, 0, s.miners.Keys, cfg.requiredClaimFeeSats, p.balances);
  }

  lemma CloseSpares(s: State, p: Pass)
    ensures Close(s, p).rewards == s.rewards
  {
  }

  // The deadline phase leaves everybody who waits alone.
  lemma DeadlineSparesWaiting(s: State, p: Pass)
    requires Inv(s) && s.active.Some?
    ensures var before, after := s.active.value.candidates, CheckDeadline(s, p).active.value.candidates;
      && |after| == |before|
      && forall j :: 0 <= j < |before| ==>
        (before[j].status == Queued <==> after[j].status == Queued)
        && (before[j].status == Queued ==> after[j] == before[j])
  {
    hide Inv;
    if s.active.value.currentReservationId.Some? {
      var k, reward := HolderIs(s);
    }
  }

  // Candidate k is the first that waits and can pay: its balance was read and covers the fee, and those of all
  // waiting ones before it were read and do not.
  ghost predicate FirstAble(queue: seq<Candidate>, cfg: Config, p: Pass, k: nat) {
    && k < |queue| && queue[k].status == Queued
    && queue[k].minerId in p.balances && p.balances[queue[k].minerId].balanceSats >= cfg.requiredClaimFeeSats
    && forall j :: 0 <= j < k && queue[j].status == Queued ==>
      queue[j].minerId in p.balances && p.balances[queue[j].minerId].balanceSats < cfg.requiredClaimFeeSats
  }

  // What candidate k is given: a new reservation, with the payment window from the reading of the clock on, and a
  // pending reward for the address its miner has registered.
  ghost predicate Granted(round: Round, cfg: Config, p: Pass, k: nat, reward: Reward, miner: Miner) {
    && k < |round.candidates|
    && var c := round.candidates[k];
    && c.minerId in p.balances
    && c.fundingBalance == Some(p.balances[c.minerId].balanceSats)
    && c.fundingProvider == Some(p.balances[c.minerId].provider)
    && reward == Reward(p.claimId, p.reservationId, round.roundId, miner.payoutAddress, 1000, PaymentPending,
                        p.promoteAt + cfg.claimPaymentWindowMs, None, c.minerId, None, p.balances[c.minerId].provider)
  }

  // Nobody holds the reservation when the pass comes to promotion.
  ghost predicate FreeAt(s: State, p: Pass)
    requires s.active.Some?
  {
    s.active.value.currentReservationId.None?
    || var reward := RewardByReservation(s, s.active.value.currentReservationId.value);
       reward.Some? && reward.value.paymentDeadlineAt <= p.deadlineCheck
  }

  // The first candidate able to pay gets the reservation that is free.
  lemma FirstAbleIsGranted(s: State, cfg: Config, p: Pass, k: nat)
    requires Inv(s) && FreshPass(s, p) && s.active.Some? && FreeAt(s, p)
    requires FirstAble(s.active.value.candidates, cfg, p, k)
    ensures var t, m := Reconcile(s, cfg, p).state, s.active.value.candidates[k].minerId;
      && p.claimId in t.rewards && t.active.Some? && m in s.miners
      && Holds(t, k, t.rewards[p.claimId])
      && Granted(t.active.value, cfg, p, k, t.rewards[p.claimId], s.miners[m])
  {
    hide Inv, CheckDeadline, Granted, FirstAble, FreeAt, Promote;
    CheckDeadlineKeeps(s, p);
    ReconcileKeeps(s, cfg, p);
    var u := CheckDeadline(s, p);
    SameAble(s, cfg, p);
    FreeIs(s, p);
    AbleIsMiner(s, u, cfg, p, k);
    PromoteGrants(u, cfg, p, k);
    GrantHolds(Promote(u, cfg, p).state, p, k);
  }

  // A pass opens a reservation exactly when none is open or the open one is overdue, and somebody is able to pay
  // before anybody whose balance could not be read.
  lemma ReservationIsGranted(s: State, cfg: Config, p: Pass)
    requires Inv(s) && FreshPass(s, p)
    ensures p.claimId in Reconcile(s, cfg, p).state.rewards <==>
      s.active.Some? && FreeAt(s, p) && exists k: nat :: FirstAble(s.active.value.candidates, cfg, p, k)
  {
    hide Inv, CheckDeadline, FirstAble, FreeAt, Promote;
    CheckDeadlineKeeps(s, p);
    if s.active.Some? {
      var u := CheckDeadline(s, p);
      SameAble(s, cfg, p);
      FreeIs(s, p);
      CloseSpares(Promote(u, cfg, p).state, p);
      if p.claimId in Promote(u, cfg, p).state.rewards {
        PromoteGrantsOnly(u, cfg, p);
      }
      if k: nat :| FreeAt(s, p) && FirstAble(s.active.value.candidates, cfg, p, k) {
        FirstAbleIsGranted(s, cfg, p, k);
      }
    } else {
      PromoteNothing(CheckDeadline(s, p), cfg, p);
    }
  }

  lemma SameAble(s: State, cfg: Config, p: Pass)
    requires Inv(s) && s.active.Some?
    ensures forall k: nat :: FirstAble(s.active.value.candidates, cfg, p, k) <==>
      FirstAble(CheckDeadline(s, p).active.value.candidates, cfg, p, k)
  {
    hide Inv, CheckDeadline;
    DeadlineSparesWaiting(s, p);
  }

  lemma FreeIs(s: State, p: Pass)
    requires Inv(s) && s.active.Some?
    ensures FreeAt(s, p) <==> CheckDeadline(s, p).active.value.currentReservationId.None?
    ensures CheckDeadline(s, p).active.value.winnerMinerId.None?
  {
    hide Inv;
    NobodyWonYet(s);
    if s.active.value.currentReservationId.Some? {
      var k, reward := HolderIs(s);
    }
  }

  lemma AbleIsMiner(s: State, u: State, cfg: Config, p: Pass, k: nat)
    requires Inv(s) && s.active.Some? && u == CheckDeadline(s, p)
    requires FirstAble(s.active.value.candidates, cfg, p, k)
    ensures s.active.value.candidates[k].minerId in s.miners
    ensures k < |u.active.value.candidates| && u.active.value.candidates[k] == s.active.value.candidates[k]
  {
    hide WinsOk, CountersOk, PendingOk, Filed, Holder, FirstComeFirstServed, Distinct, Linked, CheckDeadline;
    DeadlineSparesWaiting(s, p);
  }

  // Every candidate of the queue is a known miner, so the scan only throws where a balance is missing.
  lemma ScanChooses(s: State, cfg: Config, p: Pass, k: nat)
    requires Inv(s) && s.active.Some? && FirstAble(s.active.value.candidates, cfg, p, k)
    ensures var q := s.active.value.candidates;
      var r := ScanQueue(q, 0, s.miners.Keys, cfg.requiredClaimFeeSats, p.balances);
      && r.Chosen? && r.at == k && q[k].minerId in p.balances && r.queue[k] ==
           q[k].(fundingBalance := Some(p.balances[q[k].minerId].balanceSats),
                 fundingProvider := Some(p.balances[q[k].minerId].provider))
  {
    hide WinsOk, CountersOk, PendingOk, Filed, Holder, FirstComeFirstServed, Distinct, Linked, ScanQueue;
    ScanIs(s.active.value.candidates, 0, s.miners.Keys, cfg.requiredClaimFeeSats, p.balances);
    assert Members(s, s.active.value);
  }

  lemma PromoteGrants(s: State, cfg: Config, p: Pass, k: nat)
    requires Inv(s) && s.active.Some? && FirstAble(s.active.value.candidates, cfg, p, k)
    requires s.active.value.currentReservationId.None? && s.active.value.winnerMinerId.None?
    ensures var t := Promote(s, cfg, p).state;
      && Promote(s, cfg, p).failure.None? && p.claimId in t.rewards && s.active.value.candidates[k].minerId in s.miners
      && t.active.value.currentReservationId == Some(p.reservationId)
      && k < |t.active.value.candidates| && t.active.value.candidates[k].status == ReservationActive
      && t.active.value.candidates[k].claimId == Some(p.claimId)
      && t.active.value.winnerMinerId.None?
      && Granted(t.active.value, cfg, p, k, t.rewards[p.claimId], s.miners[s.active.value.candidates[k].minerId])
  {
    hide Inv, ScanQueue, FirstAble;
    ScanChooses(s, cfg, p, k);
  }

  lemma GrantHolds(t: State, p: Pass, k: nat)
    requires Inv(Close(t, p)) && t.active.Some? && t.active.value.winnerMinerId.None?
    requires t.active.value.currentReservationId == Some(p.reservationId)
    requires k < |t.active.value.candidates| && t.active.value.candidates[k].status == ReservationActive
    requires t.active.value.candidates[k].claimId == Some(p.claimId) && p.claimId in t.rewards
    ensures Close(t, p) == t && Holds(t, k, t.rewards[p.claimId])
  {
    hide Inv;
    var j, reward := HolderIs(t);
    SoleHolder(t, j, k);
  }

  lemma SoleHolder(s: State, j: nat, k: nat)
    requires Inv(s) && s.active.Some? && j < |s.active.value.candidates| && k < |s.active.value.candidates|
    requires s.active.value.candidates[j].status == s.active.value.candidates[k].status == ReservationActive
    ensures j == k
  {
    hide WinsOk, CountersOk, PendingOk, Filed, Members, Linked, Distinct;
  }

  lemma PromoteGrantsOnly(s: State, cfg: Config, p: Pass)
    requires Inv(s) && s.active.Some? && p.claimId !in s.rewards && p.claimId in Promote(s, cfg, p).state.rewards
    ensures s.active.value.currentReservationId.None?
    ensures exists k: nat :: FirstAble(s.active.value.candidates, cfg, p, k)
  {
    hide Inv;
    var queue := s.active.value.candidates;
    ScanIs(queue, 0, s.miners.Keys, cfg.requiredClaimFeeSats, p.balances);
    assert FirstAble(queue, cfg, p, ScanQueue(queue, 0, s.miners.Keys, cfg.requiredClaimFeeSats, p.balances).at);
  }

  // Whoever is asked on the way and cannot pay is recorded as underfunded with the balance that was read.
  lemma UnableAreRecorded(s: State, cfg: Config, p: Pass, j: nat)
    requires Inv(s) && s.active.Some? && j < |s.active.value.candidates|
    requires s.active.value.candidates[j].status == Queued
    requires Reconcile(s, cfg, p).round.Some?
    ensures var c, after := s.active.value.candidates[j], Reconcile(s, cfg, p).round.value.candidates;
      && j < |after|
      && (after[j].status == Underfunded ==>
            && c.minerId in p.balances && p.balances[c.minerId].balanceSats < cfg.requiredClaimFeeSats
            && after[j] == c.(status := Underfunded, fundingBalance := Some(p.balances[c.minerId].balanceSats),
                              fundingProvider := Some(p.balances[c.minerId].provider)))
      && after[j].status in {Queued, Underfunded, ReservationActive}
      && (after[j].status == Queued ==> after[j] == c)
  {
    hide Inv, CheckDeadline;
    CheckDeadlineKeeps(s, p);
    DeadlineSparesWaiting(s, p);
    var u := CheckDeadline(s, p);
    ScanIs(u.active.value.candidates, 0, u.miners.Keys, cfg.requiredClaimFeeSats, p.balances);
  }

  // A lookup that throws is the only way a pass fails: somebody waits whose balance could not be read, and
  // everybody waiting before could not pay.
  lemma PassFailsOnLookup(s: State, cfg: Config, p: Pass)
    requires Inv(s)
    ensures Reconcile(s, cfg, p).failure in {None, Some(ProviderFailed)}
    ensures Reconcile(s, cfg, p).failure.Some? <==>
      s.active.Some? && FreeAt(s, p) && exists k: nat :: FirstUnread(s.active.value.candidates, cfg, p, k)
  {
    hide Inv, CheckDeadline, FirstUnread, FreeAt, Promote;
    if s.active.Some? {
      CheckDeadlineKeeps(s, p);
      FreeIs(s, p);
      SameUnread(s, cfg, p);
      PromoteFails(CheckDeadline(s, p), cfg, p);
    } else {
      PromoteNothing(CheckDeadline(s, p), cfg, p);
    }
  }

  ghost predicate FirstUnread(queue: seq<Candidate>, cfg: Config, p: Pass, k: nat) {
    && k < |queue| && queue[k].status == Queued && queue[k].minerId !in p.balances
    && forall j :: 0 <= j < k && queue[j].status == Queued ==>
      queue[j].minerId in p.balances && p.balances[queue[j].minerId].balanceSats < cfg.requiredClaimFeeSats
  }

  lemma SameUnread(s: State, cfg: Config, p: Pass)
    requires Inv(s) && s.active.Some?
    ensures forall k: nat :: FirstUnread(s.active.value.candidates, cfg, p, k) <==>
      FirstUnread(CheckDeadline(s, p).active.value.candidates, cfg, p, k)
  {
    hide Inv, CheckDeadline;
    DeadlineSparesWaiting(s, p);
  }

  lemma PromoteNothing(s: State, cfg: Config, p: Pass)
    requires s.active.None?
    ensures Promote(s, cfg, p) == Phase(s, None)
  {
  }

  lemma {:induction false} ThrowsAsUnread(queue: seq<Candidate>, i: nat, miners: set<Id>, fee: int,
                                          balances: map<Id, Funding>)
    requires i <= |queue| && forall c :: c in queue ==> c.minerId in miners
    ensures var r := ScanQueue(queue, i, miners, fee, balances); r.ScanFailed? ==> r.error == ProviderFailed
    decreases |queue| - i
  {
    if i < |queue| {
      if queue[i].status != Queued {
        ThrowsAsUnread(queue, i + 1, miners, fee, balances);
      } else if queue[i].minerId in miners && queue[i].minerId in balances {
        var c := Asked(queue[i], balances[queue[i].minerId]).(status := Underfunded);
        assert forall x :: x in queue[i := c] ==> x == c || x in queue;
        ThrowsAsUnread(queue[i := c], i + 1, miners, fee, balances);
      }
    }
  }

  lemma PromoteFails(s: State, cfg: Config, p: Pass)
    requires Inv(s) && s.active.Some? && s.active.value.winnerMinerId.None?
    ensures Promote(s, cfg, p).failure in {None, Some(ProviderFailed)}
    ensures Promote(s, cfg, p).failure.Some? <==>
      s.active.value.currentReservationId.None? && exists k: nat :: FirstUnread(s.active.value.candidates, cfg, p, k)
  {
    hide WinsOk, CountersOk, PendingOk, Filed, Holder, FirstComeFirstServed, Distinct, Linked;
    var queue, fee := s.active.value.candidates, cfg.requiredClaimFeeSats;
    assert Members(s, s.active.value);
    ThrowsAsUnread(queue, 0, s.miners.Keys, fee, p.balances);
    ScanIs(queue, 0, s.miners.Keys, fee, p.balances);
    var r := ScanQueue(queue, 0, s.miners.Keys, fee, p.balances);
    hide ScanQueue;
    if r.ScanFailed? {
      assert FirstUnread(queue, cfg, p, r.at);
    } else if k: nat :| FirstUnread(queue, cfg, p, k) {
      assert r.NoneEligible? || r.at != k;
    }
  }

  // A pass drops the round exactly when the round has expired by its clock and everybody in it has failed.
  lemma RoundIsDropped(s: State, cfg: Config, p: Pass)
    requires Inv(s) && FreshPass(s, p) && s.active.Some? && Reconcile(s, cfg, p).failure.None?
    ensures Reconcile(s, cfg, p).round.Some?
    ensures Reconcile(s, cfg, p).state.active.None? <==>
      s.active.value.expiresAt <= p.closeCheck
      && forall c :: c in Reconcile(s, cfg, p).round.value.candidates ==> IsFailed(c.status)
  {
    hide Inv, CheckDeadline, Promote;
    CheckDeadlineKeeps(s, p);
    var u := CheckDeadline(s, p);
    PromoteKeeps(u, cfg, p);
    DeadlineSameTerms(s, p);
    PromoteSameTerms(u, cfg, p);
    AllFailed(Promote(u, cfg, p).state);
  }

  lemma AllFailed(s: State)
    requires Inv(s) && s.active.Some?
    ensures s.active.value.winnerMinerId.None?
    ensures var round := s.active.value;
      round.currentReservationId.None? && !HasQueued(round.candidates) <==>
      forall c :: c in round.candidates ==> IsFailed(c.status)
  {
    hide WinsOk, CountersOk, PendingOk, Filed, Distinct, Members;
    var queue := s.active.value.candidates;
    assert forall i :: 0 <= i < |queue| ==> Linked(s.rewards, s.active.value.roundId, queue[i]);
    if forall c :: c in queue ==> IsFailed(c.status) {
      assert forall i :: 0 <= i < |queue| ==> queue[i] in queue && IsFailed(queue[i].status);
    }
  }

  // A round that is opened gets the next number and the given identifier, runs for its duration from the reading
  // of the clock on, takes the three puzzles in turn, and starts with nobody in it.
  lemma RoundIsOpened(s: State, cfg: Config, p: Pass, o: Opening)
    requires Reconcile(s, cfg, p).failure.None? && Reconcile(s, cfg, p).state.active.None?
    ensures var e := EnsureRound(s, cfg, p, o);
      && e.failure.None? && e.state.active.Some? && e.state.roundCounter == s.roundCounter + 1
      && var round := e.state.active.value;
      && round.roundId == o.roundId && round.roundNumber == s.roundCounter + 1
      && round.expiresAt == o.createdAt + cfg.roundDurationMs
      && round.expectedAnswer < 3 && (s.roundCounter - round.expectedAnswer) % 3 == 0
      && round.candidates == [] && round.attempted == []
      && round.currentReservationId.None? && round.winnerMinerId.None?
  {
    hide Reconcile;
  }
}
