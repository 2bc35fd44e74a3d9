// What every reachable state of the engine-miner service satisfies, and that every phase of every
// request keeps it, whether the request is answered or throws.
module EngineInvariant {
  import opened Common
  import opened EngineTypes
  import opened EngineSpec

  // Failed candidates come first, then at most one reservation holder, then those still waiting.
  function Rank(status: CandidateStatus): nat {
    match status
    case Queued => 2
    case ReservationActive => 1
    case _ => 0
  }

  ghost predicate FirstComeFirstServed(queue: seq<Candidate>) {
    && (forall i :: 0 <= i < |queue| ==> queue[i].status != Paid)
    && forall i, j :: 0 <= i < j < |queue| ==>
      Rank(queue[i].status) <= Rank(queue[j].status)
      && !(queue[i].status == ReservationActive && queue[j].status == ReservationActive)
  }

  ghost predicate Distinct(queue: seq<Candidate>) {
    forall i, j :: 0 <= i < j < |queue| ==>
      queue[i].minerId != queue[j].minerId && queue[i].submissionId != queue[j].submissionId
  }

  // A candidate that ever held a reservation agrees with its reward on every shared field.
  ghost predicate Linked(rewards: map<Id, Reward>, roundId: Id, c: Candidate) {
    if c.reservationId.None? then c.claimId.None? && (c.status == Queued || c.status == Underfunded)
    else
      && c.claimId.Some?
      && c.claimId.value in rewards
      && var reward := rewards[c.claimId.value];
      && reward.reservationId == c.reservationId.value
      && reward.minerId == c.minerId
      && reward.roundId == roundId
      && c.paymentDeadlineAt == Some(reward.paymentDeadlineAt)
      && (c.status == ReservationActive || c.status == TimedOut || c.status == PaymentRejected)
      && reward.status == (if c.status == ReservationActive then PaymentPending else Expired)
  }

  ghost predicate Holder(round: Round) {
    && (forall i :: 0 <= i < |round.candidates| && round.candidates[i].status == ReservationActive ==>
          round.currentReservationId == round.candidates[i].reservationId)
    && (round.currentReservationId.Some? ==>
          exists i :: 0 <= i < |round.candidates| && round.candidates[i].status == ReservationActive)
  }

  ghost predicate Members(s: State, round: Round) {
    forall i :: 0 <= i < |round.candidates| ==>
      round.candidates[i].minerId in s.miners && round.candidates[i].minerId in round.attempted
  }

  ghost predicate RoundOk(s: State, round: Round) {
    && round.winnerMinerId.None?
    && round.roundNumber == s.roundCounter
    && FirstComeFirstServed(round.candidates)
    && Distinct(round.candidates)
    && Members(s, round)
    && Holder(round)
    && forall i :: 0 <= i < |round.candidates| ==> Linked(s.rewards, round.roundId, round.candidates[i])
  }

  // Rewards are filed under their own identifier, indexed by reservation, and paid exactly when won.
  ghost predicate RewardOk(s: State, c: Id)
    requires c in s.rewards
  {
    var reward := s.rewards[c];
    && reward.claimId == c
    && reward.rewardTokens == ROUND_REWARD_TOKENS
    && reward.minerId in s.miners
    && reward.reservationId in s.reservations
    && s.reservations[reward.reservationId] == c
    && reward.status != RewardSubmitted
    && (IsWon(reward.status) <==> reward.paymentTxid.Some?)
    && (IsWon(reward.status) <==> reward.paymentAcceptedAt.Some?)
  }

  ghost predicate IndexOk(s: State) {
    forall id :: id in s.reservations ==>
      s.reservations[id] in s.rewards && s.rewards[s.reservations[id]].reservationId == id
  }

  ghost predicate Filed(s: State) {
    (forall c :: c in s.rewards ==> RewardOk(s, c)) && IndexOk(s)
  }

  // A pending reward is the one the active round reserves.
  ghost predicate PendingOk(s: State) {
    forall c :: c in s.rewards && s.rewards[c].status == PaymentPending ==>
      s.active.Some? && s.active.value.currentReservationId == Some(s.rewards[c].reservationId)
  }

  // No round is won twice, and the active round is not won yet.
  ghost predicate WinsOk(s: State) {
    && (forall c, d :: c in s.rewards && d in s.rewards && IsWon(s.rewards[c].status) && IsWon(s.rewards[d].status) ==>
          (s.rewards[c].roundId == s.rewards[d].roundId ==> c == d))
    && (s.active.Some? ==> forall c :: c in s.rewards && IsWon(s.rewards[c].status) ==>
          s.rewards[c].roundId != s.active.value.roundId)
  }

  ghost function WonBy(rewards: map<Id, Reward>, minerId: Id): set<Id> {
    set c | c in rewards && rewards[c].minerId == minerId && IsWon(rewards[c].status)
  }

  ghost function Won(rewards: map<Id, Reward>): set<Id> {
    set c | c in rewards && IsWon(rewards[c].status)
  }

  ghost predicate CountersOk(s: State) {
    && (forall m :: m in s.miners ==>
          s.miners[m].totalWins == |WonBy(s.rewards, m)|
          && s.miners[m].totalRewards == ROUND_REWARD_TOKENS * s.miners[m].totalWins)
    && |Won(s.rewards)| + (if s.active.Some? then 1 else 0) <= s.roundCounter
  }

  ghost predicate Inv(s: State) {
    && Filed(s)
    && (s.active.Some? ==> RoundOk(s, s.active.value))
    && PendingOk(s)
    && WinsOk(s)
    && CountersOk(s)
  }

  // The identifiers a request draws do not collide with those already stored.
  ghost predicate FreshPass(s: State, p: Pass) {
    p.claimId !in s.rewards && p.reservationId !in s.reservations
  }

  ghost predicate FreshOpening(s: State, o: Opening) {
    forall c :: c in s.rewards ==> s.rewards[c].roundId != o.roundId
  }

  // Changing one reward without touching who won leaves all win counts alone.
  lemma SameWins(rewards: map<Id, Reward>, c: Id, reward: Reward)
    requires !IsWon(reward.status)
    requires c in rewards ==> !IsWon(rewards[c].status)
    ensures Won(rewards[c := reward]) == Won(rewards)
    ensures forall m :: WonBy(rewards[c := reward], m) == WonBy(rewards, m)
  {
  }

  // Candidate k holds the open reservation, and reward is the pending reward that goes with it.
  ghost predicate Holds(s: State, k: nat, reward: Reward) {
    && s.active.Some?
    && k < |s.active.value.candidates|
    && var round, c := s.active.value, s.active.value.candidates[k];
    && c.status == ReservationActive
    && c.reservationId == round.currentReservationId == Some(reward.reservationId)
    && c.claimId == Some(reward.claimId)
    && c.paymentDeadlineAt == Some(reward.paymentDeadlineAt)
    && c.minerId == reward.minerId
    && round.roundId == reward.roundId
    && reward.status == PaymentPending
    && reward.rewardTokens == ROUND_REWARD_TOKENS
    && reward.paymentTxid.None? && reward.paymentAcceptedAt.None?
    && reward.claimId in s.rewards && s.rewards[reward.claimId] == reward
    && reward.minerId in s.miners
    && RewardByReservation(s, reward.reservationId) == Some(reward)
    && IndexOfReservation(round.candidates, reward.reservationId) == k
  }

  // While a reservation is open, its holder, its reward and its index entry agree.
  lemma HolderIs(s: State) returns (k: nat, reward: Reward)
    requires Inv(s) && s.active.Some? && s.active.value.currentReservationId.Some?
    ensures Holds(s, k, reward)
  {
    var round := s.active.value;
    k :| 0 <= k < |round.candidates| && round.candidates[k].status == ReservationActive;
    assert Linked(s.rewards, round.roundId, round.candidates[k]);
    reward := s.rewards[round.candidates[k].claimId.value];
    assert RewardOk(s, round.candidates[k].claimId.value);
  }

  // Moving a reward on leaves it filed and indexed as it was.
  lemma StillFiled(s: State, t: State, c: Id, reward: Reward)
    requires Filed(s) && c in s.rewards
    requires t.rewards == s.rewards[c := reward] && t.reservations == s.reservations && s.miners.Keys <= t.miners.Keys
    requires reward.claimId == c && reward.reservationId == s.rewards[c].reservationId
    requires reward.minerId == s.rewards[c].minerId && reward.rewardTokens == ROUND_REWARD_TOKENS
    requires reward.status != RewardSubmitted
    requires IsWon(reward.status) <==> reward.paymentTxid.Some?
    requires IsWon(reward.status) <==> reward.paymentAcceptedAt.Some?
    ensures Filed(t)
  {
  }

  lemma HolderFails(queue: seq<Candidate>, k: nat, c: Candidate)
    requires FirstComeFirstServed(queue) && Distinct(queue)
    requires k < |queue| && queue[k].status == ReservationActive
    requires IsFailed(c.status) && c.minerId == queue[k].minerId && c.submissionId == queue[k].submissionId
    ensures FirstComeFirstServed(queue[k := c]) && Distinct(queue[k := c])
    ensures forall x :: x in queue[k := c] ==> x.status != ReservationActive
  {
  }

  lemma ExpireRound(s: State, k: nat, reward: Reward, status: CandidateStatus)
    requires Inv(s) && Holds(s, k, reward)
    requires status == TimedOut || status == PaymentRejected
    ensures var t := Expire(s, reward, status); RoundOk(t, t.active.value)
  {
    hide CountersOk, WinsOk, PendingOk, Filed;
    var t := Expire(s, reward, status);
    var round, queue := s.active.value, t.active.value.candidates;
    HolderFails(round.candidates, k, round.candidates[k].(status := status));
    assert queue == round.candidates[k := round.candidates[k].(status := status)];
    forall i | 0 <= i < |queue|
      ensures Linked(t.rewards, round.roundId, queue[i])
    {
      assert Linked(s.rewards, round.roundId, round.candidates[i]);
    }
  }

  // Whoever has won is unaffected when a reward that was not won stays not won.
  lemma StillCounted(s: State, t: State, c: Id, reward: Reward)
    requires WinsOk(s) && CountersOk(s)
    requires !IsWon(reward.status) && (c in s.rewards ==> !IsWon(s.rewards[c].status))
    requires t.rewards == s.rewards[c := reward]
    requires t.active.Some? ==> s.active.Some? && t.active.value.roundId == s.active.value.roundId
    requires t.miners == s.miners && t.roundCounter == s.roundCounter
    ensures WinsOk(t) && CountersOk(t)
  {
    SameWins(s.rewards, c, reward);
  }

  lemma NonePending(s: State, t: State, k: nat, reward: Reward)
    requires Filed(s) && PendingOk(s) && Holds(s, k, reward)
    requires t.rewards.Keys == s.rewards.Keys && t.rewards[reward.claimId].status != PaymentPending
    requires forall d :: d in s.rewards && d != reward.claimId ==> t.rewards[d] == s.rewards[d]
    ensures PendingOk(t)
  {
  }

  lemma ExpireKeeps(s: State, k: nat, reward: Reward, status: CandidateStatus)
    requires Inv(s) && Holds(s, k, reward)
    requires status == TimedOut || status == PaymentRejected
    ensures Inv(Expire(s, reward, status))
  {
    hide RoundOk, WinsOk, CountersOk, PendingOk, Filed;
    var t := Expire(s, reward, status);
    StillFiled(s, t, reward.claimId, reward.(status := Expired));
    ExpireRound(s, k, reward, status);
    StillCounted(s, t, reward.claimId, reward.(status := Expired));
    NonePending(s, t, k, reward);
  }

  lemma CheckDeadlineKeeps(s: State, p: Pass)
    requires Inv(s)
    ensures Inv(CheckDeadline(s, p))
    ensures CheckDeadline(s, p).rewards.Keys == s.rewards.Keys && CheckDeadline(s, p).reservations == s.reservations
  {
    hide RoundOk, WinsOk, CountersOk, PendingOk, Filed;
    if s.active.Some? && s.active.value.currentReservationId.Some? {
      var k, reward := HolderIs(s);
      ExpireKeeps(s, k, reward, TimedOut);
    }
  }

  // What the scan does to the queue, said without recursion: everyone waiting before the stop has been
  // asked and could not pay, everyone after it is untouched, and the stop is where somebody could pay,
  // where a lookup threw, or the end.
  ghost predicate Scanned(queue: seq<Candidate>, i: nat, miners: set<Id>, fee: int, balances: map<Id, Funding>,
                          r: Scan)
  {
    && i <= r.at <= |queue| == |r.queue|
    && (forall j :: i <= j < r.at && queue[j].status == Queued ==>
          queue[j].minerId in balances && balances[queue[j].minerId].balanceSats < fee
          && r.queue[j] == Asked(queue[j], balances[queue[j].minerId]).(status := Underfunded))
    && (forall j :: 0 <= j < |queue| && (j < i || j > r.at || queue[j].status != Queued) ==> r.queue[j] == queue[j])
    && (r.NoneEligible? ==> r.at == |queue|)
    && (!r.NoneEligible? ==> r.at < |queue| && queue[r.at].status == Queued)
    && (r.ScanFailed? ==>
          r.queue[r.at] == queue[r.at] && (queue[r.at].minerId !in balances || queue[r.at].minerId !in miners))
    && (r.Chosen? ==>
          queue[r.at].minerId in balances && balances[queue[r.at].minerId].balanceSats >= fee
          && r.queue[r.at] == Asked(queue[r.at], balances[queue[r.at].minerId]))
  }

  lemma {:induction false} ScanIs(queue: seq<Candidate>, i: nat, miners: set<Id>, fee: int, balances: map<Id, Funding>)
    requires i <= |queue|
    ensures Scanned(queue, i, miners, fee, balances, ScanQueue(queue, i, miners, fee, balances))
    decreases |queue| - i
  {
    if i < |queue| {
      if queue[i].status != Queued {
        ScanIs(queue, i + 1, miners, fee, balances);
      } else if queue[i].minerId in miners && queue[i].minerId in balances
                && balances[queue[i].minerId].balanceSats < fee {
        var next := queue[i := Asked(queue[i], balances[queue[i].minerId]).(status := Underfunded)];
        ScanIs(next, i + 1, miners, fee, balances);
        assert ScanQueue(next, i + 1, miners, fee, balances).queue[i] == next[i];
        assert forall j :: i < j < |queue| ==> next[j] == queue[j];
      }
    }
  }

  // A scan of a well-ordered queue without a holder leaves a well-ordered queue without a holder.
  lemma ScanKeepsOrder(queue: seq<Candidate>, miners: set<Id>, fee: int, balances: map<Id, Funding>, r: Scan)
    requires FirstComeFirstServed(queue) && Distinct(queue) && Scanned(queue, 0, miners, fee, balances, r)
    requires forall i :: 0 <= i < |queue| ==> queue[i].status != ReservationActive
    ensures FirstComeFirstServed(r.queue) && Distinct(r.queue)
    ensures forall i :: 0 <= i < |queue| ==> r.queue[i].status != ReservationActive
    ensures forall i :: 0 <= i < r.at ==> r.queue[i].status != Queued
  {
    assert forall i :: 0 <= i < |queue| ==>
      r.queue[i].minerId == queue[i].minerId && r.queue[i].submissionId == queue[i].submissionId;
    assert forall i :: 0 <= i < |queue| ==> r.queue[i].status == queue[i].status || i < r.at;
  }

  // The scan changes no field that the rest of the state is linked to.
  lemma ScanKeepsRound(s: State, fee: int, balances: map<Id, Funding>, r: Scan)
    requires Inv(s) && s.active.Some? && s.active.value.currentReservationId.None?
    requires Scanned(s.active.value.candidates, 0, s.miners.Keys, fee, balances, r)
    ensures RoundOk(s, s.active.value.(candidates := r.queue))
    ensures forall i :: 0 <= i < |r.queue| ==> r.queue[i].status != ReservationActive
    ensures forall i :: 0 <= i < r.at ==> r.queue[i].status != Queued
  {
    hide CountersOk, WinsOk, PendingOk, Filed;
    var round := s.active.value;
    ScanKeepsOrder(round.candidates, s.miners.Keys, fee, balances, r);
    forall i | 0 <= i < |r.queue|
      ensures Linked(s.rewards, round.roundId, r.queue[i])
      ensures r.queue[i].minerId == round.candidates[i].minerId
    {
      assert Linked(s.rewards, round.roundId, round.candidates[i]);
    }
  }

  // A queue without holder stays well ordered when its first waiting candidate is served.
  lemma ServeFirst(s: State, round: Round, k: nat, cfg: Config, p: Pass, t: State)
    requires RoundOk(s, round) && round.currentReservationId.None? && FreshPass(s, p)
    requires k < |round.candidates| && round.candidates[k].status == Queued
    requires forall i :: 0 <= i < k ==> round.candidates[i].status != Queued
    requires round.candidates[k].minerId in s.miners && round.candidates[k].minerId in p.balances
    requires t.miners == s.miners && t.roundCounter == s.roundCounter
    requires var c := round.candidates[k];
      t.rewards == s.rewards[p.claimId :=
        PendingReward(c, s.miners[c.minerId], p.balances[c.minerId].provider, round.roundId, cfg, p)]
    ensures RoundOk(t, round.(candidates := round.candidates[k := Reserve(round.candidates[k], cfg, p)],
                              currentReservationId := Some(p.reservationId)))
  {
    var next := round.(candidates := round.candidates[k := Reserve(round.candidates[k], cfg, p)],
                       currentReservationId := Some(p.reservationId));
    assert FirstComeFirstServed(next.candidates);
    forall i | 0 <= i < |next.candidates|
      ensures Linked(t.rewards, round.roundId, next.candidates[i])
    {
      assert Linked(s.rewards, round.roundId, round.candidates[i]);
    }
    assert Holder(next) by {
      assert next.candidates[k].status == ReservationActive;
    }
  }

  lemma FileNew(s: State, t: State, reward: Reward)
    requires Filed(s) && reward.claimId !in s.rewards && reward.reservationId !in s.reservations
    requires t.rewards == s.rewards[reward.claimId := reward] && t.miners == s.miners
    requires t.reservations == s.reservations[reward.reservationId := reward.claimId]
    requires reward.minerId in s.miners && reward.rewardTokens == ROUND_REWARD_TOKENS
    requires reward.status == PaymentPending && reward.paymentTxid.None? && reward.paymentAcceptedAt.None?
    ensures Filed(t)
  {
  }

  lemma PromoteKeeps(s: State, cfg: Config, p: Pass)
    requires Inv(s) && FreshPass(s, p)
    ensures Inv(Promote(s, cfg, p).state)
  {
    hide RoundOk, WinsOk, CountersOk, Filed;
    if s.active.Some? && s.active.value.currentReservationId.None? && s.active.value.winnerMinerId.None? {
      var round := s.active.value;
      var fee := cfg.requiredClaimFeeSats;
      ScanIs(round.candidates, 0, s.miners.Keys, fee, p.balances);
      var scan := ScanQueue(round.candidates, 0, s.miners.Keys, fee, p.balances);
      ScanKeepsRound(s, fee, p.balances, scan);
      PromoteScanned(s, cfg, p, scan);
    }
  }

  lemma PromoteScanned(s: State, cfg: Config, p: Pass, scan: Scan)
    requires Inv(s) && FreshPass(s, p) && s.active.Some?
    requires s.active.value.currentReservationId.None? && s.active.value.winnerMinerId.None?
    requires scan == ScanQueue(s.active.value.candidates, 0, s.miners.Keys, cfg.requiredClaimFeeSats, p.balances)
    requires RoundOk(s, s.active.value.(candidates := scan.queue))
    requires scan.Chosen? ==> scan.queue[scan.at].status == Queued
    requires forall i :: 0 <= i < scan.at <= |scan.queue| ==> scan.queue[i].status != Queued
    ensures Inv(Promote(s, cfg, p).state)
  {
    hide RoundOk, WinsOk, CountersOk, Filed;
    var t := Promote(s, cfg, p).state;
    var round := s.active.value.(candidates := scan.queue);
    if scan.Chosen? {
      var c := scan.queue[scan.at];
      var reward := PendingReward(c, s.miners[c.minerId], p.balances[c.minerId].provider, round.roundId, cfg, p);
      ServeFirst(s, round, scan.at, cfg, p, t);
      FileNew(s, t, reward);
      StillCounted(s, t, p.claimId, reward);
    } else {
      SameRewards(s, t);
    }
  }

  // The parts of the invariant that a state inherits when the fields they read stay as they are.
  lemma FiledStays(s: State, t: State)
    requires Filed(s) && t.rewards == s.rewards && t.reservations == s.reservations && s.miners.Keys <= t.miners.Keys
    ensures Filed(t)
  {
  }

  lemma RoundStays(s: State, t: State, round: Round)
    requires RoundOk(s, round) && t.rewards == s.rewards && s.miners.Keys <= t.miners.Keys
    requires t.roundCounter == s.roundCounter
    ensures RoundOk(t, round)
  {
  }

  lemma SameRewards(s: State, t: State)
    requires Inv(s) && t.rewards == s.rewards && t.reservations == s.reservations && t.miners == s.miners
    requires s.active.Some? && t.active.Some? && t.roundCounter == s.roundCounter
    requires t.active.value.roundId == s.active.value.roundId && RoundOk(s, t.active.value)
    requires t.active.value.currentReservationId == s.active.value.currentReservationId
    ensures Inv(t)
  {
    hide RoundOk, Filed;
    FiledStays(s, t);
    RoundStays(s, t, t.active.value);
  }

  lemma CloseKeeps(s: State, p: Pass)
    requires Inv(s)
    ensures Inv(Close(s, p))
  {
  }

  lemma OpenKeeps(s: State, cfg: Config, o: Opening)
    requires Inv(s) && s.active.None? && FreshOpening(s, o)
    ensures Inv(s.(roundCounter := s.roundCounter + 1, active := Some(NewRound(s, cfg, o))))
  {
    var t := s.(roundCounter := s.roundCounter + 1, active := Some(NewRound(s, cfg, o)));
    forall d | d in t.rewards ensures RewardOk(t, d) { assert RewardOk(s, d); }
  }

  // Bookkeeping on a miner that leaves its win counters alone.
  lemma TouchMinerKeeps(s: State, m: Id, miner: Miner)
    requires Inv(s) && m in s.miners
    requires miner.totalWins == s.miners[m].totalWins && miner.totalRewards == s.miners[m].totalRewards
    ensures Inv(SetMiner(s, m, miner))
  {
  }

  lemma NoWinsYet(s: State, m: Id)
    requires Filed(s) && m !in s.miners
    ensures WonBy(s.rewards, m) == {}
  {
  }

  lemma RegisterKeeps(s: State, m: Id, miner: Miner)
    requires Inv(s) && m !in s.miners && miner.totalWins == 0 && miner.totalRewards == 0
    ensures Inv(SetMiner(s, m, miner))
  {
    hide RoundOk, Filed, Won, WonBy;
    var t := SetMiner(s, m, miner);
    NoWinsYet(s, m);
    FiledStays(s, t);
    if s.active.Some? {
      RoundStays(s, t, s.active.value);
    }
  }

  lemma AttemptKeeps(s: State, m: Id, submissionId: Id)
    requires Inv(s) && m in s.miners && s.active.Some?
    ensures Inv(Attempt(s, m, submissionId))
  {
    hide Filed, RoundOk, CountersOk;
    var t := Attempt(s, m, submissionId);
    FiledStays(s, t);
    AttemptCounts(s, m, submissionId);
    AttemptRound(s, m, submissionId);
  }

  lemma AttemptCounts(s: State, m: Id, submissionId: Id)
    requires CountersOk(s) && m in s.miners && s.active.Some?
    ensures CountersOk(Attempt(s, m, submissionId))
  {
  }

  lemma AttemptRound(s: State, m: Id, submissionId: Id)
    requires m in s.miners && s.active.Some? && RoundOk(s, s.active.value)
    ensures RoundOk(Attempt(s, m, submissionId), Attempt(s, m, submissionId).active.value)
  {
    hide FirstComeFirstServed, Distinct, Linked;
  }

  // A miner seen for the first time in the round joins behind everyone else.
  lemma EnqueueKeeps(s: State, m: Id, submissionId: Id, receivedAt: Time)
    requires Inv(s) && s.active.Some? && m in s.miners && m in s.active.value.attempted
    requires forall i :: 0 <= i < |s.active.value.candidates| ==>
      s.active.value.candidates[i].minerId != m && s.active.value.candidates[i].submissionId != submissionId
    ensures Inv(Enqueue(s, m, submissionId, receivedAt))
  {
    hide WinsOk, CountersOk, Filed, PendingOk;
    var t := Enqueue(s, m, submissionId, receivedAt);
    var queue := s.active.value.candidates;
    assert RoundOk(s, t.active.value) by {
      assert forall i :: 0 <= i < |queue| ==> t.active.value.candidates[i] == queue[i];
    }
    SameRewards(s, t);
  }

  lemma WonGains(rewards: map<Id, Reward>, c: Id, reward: Reward)
    requires c in rewards && !IsWon(rewards[c].status) && IsWon(reward.status) && reward.minerId == rewards[c].minerId
    ensures |Won(rewards[c := reward])| == |Won(rewards)| + 1
    ensures |WonBy(rewards[c := reward], reward.minerId)| == |WonBy(rewards, reward.minerId)| + 1
    ensures forall m :: m != reward.minerId ==> WonBy(rewards[c := reward], m) == WonBy(rewards, m)
  {
    assert Won(rewards[c := reward]) == Won(rewards) + {c};
    assert WonBy(rewards[c := reward], reward.minerId) == WonBy(rewards, reward.minerId) + {c};
  }

  lemma WinKeeps(s: State, k: nat, reward: Reward, txid: Text, provider: Text, now: Time)
    requires Inv(s) && Holds(s, k, reward)
    ensures Inv(Win(s, reward, txid, provider, now))
  {
    hide RoundOk, Filed, PendingOk, WinsOk, CountersOk;
    var t := Win(s, reward, txid, provider, now);
    var paid := t.rewards[reward.claimId];
    StillFiled(s, t, reward.claimId, paid);
    NonePending(s, t, k, reward);
    WinCounted(s, k, reward, txid, provider, now);
  }

  lemma WinCounted(s: State, k: nat, reward: Reward, txid: Text, provider: Text, now: Time)
    requires WinsOk(s) && CountersOk(s) && Holds(s, k, reward)
    ensures WinsOk(Win(s, reward, txid, provider, now)) && CountersOk(Win(s, reward, txid, provider, now))
  {
    hide WonBy, Won;
    WonGains(s.rewards, reward.claimId, Win(s, reward, txid, provider, now).rewards[reward.claimId]);
  }

  ghost predicate AllClaimable(rewards: map<Id, Reward>, claimIds: seq<Id>) {
    forall i :: 0 <= i < |claimIds| ==> claimIds[i] in rewards && rewards[claimIds[i]].status == Claimable
  }

  lemma IssueFiled(s: State, t: State, claimIds: seq<Id>)
    requires Filed(s) && AllClaimable(s.rewards, claimIds)
    requires t.rewards == MarkIssued(s.rewards, claimIds) && t.reservations == s.reservations && t.miners == s.miners
    ensures Filed(t)
  {
  }

  lemma IssueRound(s: State, t: State, claimIds: seq<Id>, round: Round)
    requires RoundOk(s, round) && AllClaimable(s.rewards, claimIds)
    requires t.rewards == MarkIssued(s.rewards, claimIds) && t.miners == s.miners && t.roundCounter == s.roundCounter
    ensures RoundOk(t, round)
  {
  }

  lemma IssueWins(rewards: map<Id, Reward>, claimIds: seq<Id>)
    requires AllClaimable(rewards, claimIds)
    ensures Won(MarkIssued(rewards, claimIds)) == Won(rewards)
    ensures forall m :: WonBy(MarkIssued(rewards, claimIds), m) == WonBy(rewards, m)
  {
  }

  lemma IssueKeeps(s: State, claimIds: seq<Id>, receiptId: Id, receipt: Receipt)
    requires Inv(s) && AllClaimable(s.rewards, claimIds)
    ensures Inv(s.(rewards := MarkIssued(s.rewards, claimIds), receipts := s.receipts[receiptId := receipt]))
  {
    hide RoundOk, Filed, Won, WonBy;
    var t := s.(rewards := MarkIssued(s.rewards, claimIds), receipts := s.receipts[receiptId := receipt]);
    IssueFiled(s, t, claimIds);
    IssueWins(s.rewards, claimIds);
    if s.active.Some? {
      IssueRound(s, t, claimIds, s.active.value);
    }
  }
}
