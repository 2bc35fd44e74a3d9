// Whole runs of the engine-miner service: the invariant holds throughout, rewards only move forward,
// receipts and submissions are never taken back.
module EngineRuns {
  import opened Common
  import opened EngineTypes
  import opened EngineSpec
  import opened EngineInvariant

  // Names in use, against which freshly drawn ones are compared.
  ghost function RoundNames(s: State): set<Id> {
    (set c | c in s.rewards :: s.rewards[c].roundId) + (if s.active.Some? then {s.active.value.roundId} else {})
  }

  ghost function SubmissionNames(s: State): set<Id> {
    if s.active.None? then {} else set c | c in s.active.value.candidates :: c.submissionId
  }

  ghost predicate FreshPair(s: State, p: Pass, q: Pass) {
    FreshPass(s, p) && FreshPass(s, q) && p.claimId != q.claimId && p.reservationId != q.reservationId
  }

  // The identifiers a request draws are new to the state it meets.
  ghost predicate Fresh(s: State, r: Request) {
    match r
    case Register(minerId, _, _, _, _) => minerId !in s.miners
    case StartMining(_, p, o) => FreshPass(s, p) && o.roundId !in RoundNames(s)
    case GetCurrentRound(_, p, o) => FreshPass(s, p) && o.roundId !in RoundNames(s)
    case SubmitSolution(_, _, _, p, o, _, submissionId, _, q) =>
      FreshPair(s, p, q) && o.roundId !in RoundNames(s) && submissionId !in SubmissionNames(s)
    case GetMinerStatus(_, p) => FreshPass(s, p)
    case ListClaimableRewards(_, p) => FreshPass(s, p)
    case RequestClaimReceipt(_, _, p, receiptId, _, _, _) => FreshPass(s, p) && receiptId !in s.receipts
    case SubmitClaimPayment(_, p, _, _, q, _) => FreshPair(s, p, q)
    case _ => true
  }

  ghost predicate FreshRun(s: State, cfg: Config, rs: seq<Request>)
    decreases |rs|
  {
    rs == [] || (Fresh(s, rs[0]) && FreshRun(Step(s, cfg, rs[0]).state, cfg, rs[1..]))
  }

  // A reward only moves payment_pending -> claimable -> receipt_issued or payment_pending -> expired,
  // and once it is no longer pending it keeps its payment fields.
  predicate StatusAdvances(before: RewardStatus, after: RewardStatus) {
    match before
    case PaymentPending => true
    case Claimable => after == Claimable || after == ReceiptIssued
    case _ => after == before
  }

  ghost predicate Advances(before: Reward, after: Reward) {
    && StatusAdvances(before.status, after.status)
    && after == before.(status := after.status, paymentTxid := after.paymentTxid,
                        paymentAcceptedAt := after.paymentAcceptedAt, paymentProvider := after.paymentProvider)
    && (before.status != PaymentPending ==>
          after.paymentTxid == before.paymentTxid && after.paymentAcceptedAt == before.paymentAcceptedAt
          && after.paymentProvider == before.paymentProvider)
  }

  ghost predicate ReceiptAdvances(before: Receipt, after: Receipt) {
    && after == before.(status := after.status, lastKnownTxid := after.lastKnownTxid)
    && (before.status == Submitted ==> after == before)
  }

  // What a miner has registered with.
  predicate SameIdentity(a: Miner, b: Miner) {
    a.payoutAddress == b.payoutAddress && a.fundingAddress == b.fundingAddress
    && a.addressType == b.addressType && a.network == b.network
  }

  ghost predicate SameMiners(before: map<Id, Miner>, after: map<Id, Miner>) {
    forall m :: m in before ==> m in after && SameIdentity(before[m], after[m])
  }

  // Nothing recorded is lost between two states of a run.
  ghost predicate Grows(s: State, t: State) {
    && SameMiners(s.miners, t.miners)
    && s.roundCounter <= t.roundCounter
    && (forall c :: c in s.rewards ==> c in t.rewards && Advances(s.rewards[c], t.rewards[c]))
    && (forall id :: id in s.reservations ==> id in t.reservations && t.reservations[id] == s.reservations[id])
    && (forall c :: c in s.receipts ==> c in t.receipts && ReceiptAdvances(s.receipts[c], t.receipts[c]))
    && (forall c :: c in s.submissions ==> c in t.submissions && t.submissions[c] == s.submissions[c])
  }

  lemma GrowsTransitive(s: State, t: State, u: State)
    requires Grows(s, t) && Grows(t, u)
    ensures Grows(s, u)
  {
    forall c | c in s.rewards ensures c in u.rewards && Advances(s.rewards[c], u.rewards[c]) {
      assert Advances(s.rewards[c], t.rewards[c]) && Advances(t.rewards[c], u.rewards[c]);
    }
    forall c | c in s.receipts ensures c in u.receipts && ReceiptAdvances(s.receipts[c], u.receipts[c]) {
      assert ReceiptAdvances(s.receipts[c], t.receipts[c]) && ReceiptAdvances(t.receipts[c], u.receipts[c]);
    }
  }

  predicate CandidateAdvances(before: Candidate, after: Candidate) {
    && after.minerId == before.minerId
    && after.submissionId == before.submissionId
    && after.receivedAt == before.receivedAt
    && (before.status != Queued ==> after.reservationId == before.reservationId)
    && match before.status
       case Queued => true
       case ReservationActive => after.status != Queued && after.status != Underfunded
       case _ => after.status == before.status
  }

  ghost predicate QueueAdvances(before: seq<Candidate>, after: seq<Candidate>) {
    |before| <= |after| && forall i :: 0 <= i < |before| ==> CandidateAdvances(before[i], after[i])
  }

  // A round keeps its terms, its queue and who has made an attempt in it, a dropped round does not come back,
  // and every candidate keeps its place and waits, is served, and fails at most once each.
  ghost predicate RoundAdvances(s: State, t: State) {
    && s.roundCounter <= t.roundCounter
    && (s.active.None? && t.active.Some? ==> s.roundCounter < t.roundCounter)
    && (s.active.Some? && t.active.Some? && s.roundCounter == t.roundCounter ==>
          && t.active.value.roundId == s.active.value.roundId
          && t.active.value.expiresAt == s.active.value.expiresAt
          && t.active.value.expectedAnswer == s.active.value.expectedAnswer
          && s.active.value.attempted <= t.active.value.attempted
          && QueueAdvances(s.active.value.candidates, t.active.value.candidates))
  }

  lemma RoundAdvancesTransitive(s: State, t: State, u: State)
    requires RoundAdvances(s, t) && RoundAdvances(t, u)
    ensures RoundAdvances(s, u)
  {
  }

  lemma ExpireAdvances(s: State, k: nat, reward: Reward, status: CandidateStatus)
    requires Holds(s, k, reward) && (status == TimedOut || status == PaymentRejected)
    ensures RoundAdvances(s, Expire(s, reward, status))
  {
  }

  lemma ScanAdvances(queue: seq<Candidate>, miners: set<Id>, fee: int, balances: map<Id, Funding>, r: Scan,
                     c: Candidate)
    requires Scanned(queue, 0, miners, fee, balances, r)
    requires r.Chosen? ==> CandidateAdvances(queue[r.at], c)
    ensures QueueAdvances(queue, r.queue)
    ensures r.Chosen? ==> QueueAdvances(queue, r.queue[r.at := c])
  {
  }

  lemma PromoteAdvances(s: State, cfg: Config, p: Pass)
    ensures RoundAdvances(s, Promote(s, cfg, p).state)
  {
    if s.active.Some? {
      var queue := s.active.value.candidates;
      var fee := cfg.requiredClaimFeeSats;
      ScanIs(queue, 0, s.miners.Keys, fee, p.balances);
      var r := ScanQueue(queue, 0, s.miners.Keys, fee, p.balances);
      if r.Chosen? {
        ScanAdvances(queue, s.miners.Keys, fee, p.balances, r, Reserve(r.queue[r.at], cfg, p));
      } else {
        ScanAdvances(queue, s.miners.Keys, fee, p.balances, r,
                     Candidate(0, 0, 0, Queued, None, None, None, None, None));
      }
    }
  }

  ghost function IssuedRounds(rewards: map<Id, Reward>): set<Id> {
    set c | c in rewards && rewards[c].status == ReceiptIssued :: rewards[c].roundId
  }

  // A step that issues and submits nothing.
  ghost predicate Quiet(s: State, t: State) {
    && t.receipts == s.receipts
    && t.submissions == s.submissions
    && IssuedRounds(t.rewards) == IssuedRounds(s.rewards)
  }

  // What a reconciliation may do besides keeping the invariant.
  ghost predicate Reconciles(s: State, t: State, p: Pass) {
    && Grows(s, t)
    && Quiet(s, t)
    && RoundAdvances(s, t)
    && t.miners == s.miners
    && t.rewards.Keys <= s.rewards.Keys + {p.claimId}
    && t.reservations.Keys <= s.reservations.Keys + {p.reservationId}
    && RoundNames(t) <= RoundNames(s)
    && SubmissionNames(t) <= SubmissionNames(s)
  }

  lemma ChangeOne(s: State, t: State, c: Id, reward: Reward)
    requires t.rewards == s.rewards[c := reward] && t.reservations == s.reservations && t.receipts == s.receipts
    requires t.submissions == s.submissions && SameMiners(s.miners, t.miners) && s.roundCounter <= t.roundCounter
    requires c in s.rewards && Advances(s.rewards[c], reward)
    requires s.rewards[c].status == PaymentPending && reward.status != ReceiptIssued
    ensures Grows(s, t) && Quiet(s, t)
  {
  }

  lemma CheckDeadlineReconciles(s: State, p: Pass)
    requires Inv(s)
    ensures Reconciles(s, CheckDeadline(s, p), p)
  {
    hide RoundOk, WinsOk, CountersOk, PendingOk, Filed;
    if s.active.Some? && s.active.value.currentReservationId.Some? {
      var k, reward := HolderIs(s);
      if reward.paymentDeadlineAt <= p.deadlineCheck {
        ExpireReconciles(s, k, reward, TimedOut, p);
      }
    }
  }

  lemma ExpireReconciles(s: State, k: nat, reward: Reward, status: CandidateStatus, p: Pass)
    requires Inv(s) && Holds(s, k, reward) && (status == TimedOut || status == PaymentRejected)
    ensures Reconciles(s, Expire(s, reward, status), p)
  {
    hide Inv, RoundAdvances;
    ExpireAdvances(s, k, reward, status);
    var t := Expire(s, reward, status);
    ChangeOne(s, t, reward.claimId, reward.(status := Expired));
    assert forall i :: 0 <= i < |s.active.value.candidates| ==>
      t.active.value.candidates[i].submissionId == s.active.value.candidates[i].submissionId;
  }

  lemma AddOne(s: State, t: State, c: Id, reward: Reward)
    requires t.rewards == s.rewards[c := reward] && c !in s.rewards && reward.status != ReceiptIssued
    requires t.receipts == s.receipts && t.submissions == s.submissions && t.miners == s.miners
    requires t.roundCounter == s.roundCounter
    requires forall id :: id in s.reservations ==> id in t.reservations && t.reservations[id] == s.reservations[id]
    requires s.active.Some? && t.active.Some? && t.active.value.roundId == s.active.value.roundId == reward.roundId
    ensures Grows(s, t) && Quiet(s, t) && RoundNames(t) <= RoundNames(s)
  {
  }

  lemma SameNames(s: State, t: State)
    requires s.active.Some? && t.active.Some? && |t.active.value.candidates| == |s.active.value.candidates|
    requires forall i :: 0 <= i < |s.active.value.candidates| ==>
      t.active.value.candidates[i].submissionId == s.active.value.candidates[i].submissionId
    ensures SubmissionNames(t) <= SubmissionNames(s)
  {
  }

  lemma PromoteNames(s: State, cfg: Config, p: Pass)
    ensures SubmissionNames(Promote(s, cfg, p).state) <= SubmissionNames(s)
  {
    var t := Promote(s, cfg, p).state;
    if t != s {
      ScanIs(s.active.value.candidates, 0, s.miners.Keys, cfg.requiredClaimFeeSats, p.balances);
      SameNames(s, t);
    }
  }

  lemma PromoteReconciles(s: State, cfg: Config, p: Pass)
    requires FreshPass(s, p)
    ensures Reconciles(s, Promote(s, cfg, p).state, p)
  {
    hide RoundNames, SubmissionNames, Quiet, Grows, RoundAdvances;
    PromoteAdvances(s, cfg, p);
    PromoteNames(s, cfg, p);
    var t := Promote(s, cfg, p).state;
    if t.rewards == s.rewards {
      QuietSelf(s, t);
    } else {
      AddOne(s, t, p.claimId, t.rewards[p.claimId]);
    }
  }

  lemma QuietSelf(s: State, t: State)
    requires t.rewards == s.rewards && t.reservations == s.reservations && t.receipts == s.receipts
    requires t.submissions == s.submissions && t.miners == s.miners && t.roundCounter == s.roundCounter
    requires t.active.Some? ==> s.active.Some? && t.active.value.roundId == s.active.value.roundId
    ensures Grows(s, t) && Quiet(s, t) && RoundNames(t) <= RoundNames(s)
  {
  }

  lemma CloseReconciles(s: State, p: Pass)
    ensures Reconciles(s, Close(s, p), p)
  {
    hide RoundNames, Quiet, Grows;
    QuietSelf(s, Close(s, p));
  }

  lemma ReconcilesTransitive(s: State, t: State, u: State, p: Pass)
    requires Reconciles(s, t, p) && Reconciles(t, u, p)
    ensures Reconciles(s, u, p)
  {
    hide Advances, ReceiptAdvances, RoundNames, SubmissionNames, IssuedRounds, RoundAdvances;
    GrowsTransitive(s, t, u);
    RoundAdvancesTransitive(s, t, u);
  }

  // One reconciliation keeps the invariant, whether or not a lookup throws in the middle of it.
  lemma ReconcileKeeps(s: State, cfg: Config, p: Pass)
    requires Inv(s) && FreshPass(s, p)
    ensures Inv(Reconcile(s, cfg, p).state)
    ensures Reconciles(s, Reconcile(s, cfg, p).state, p)
  {
    hide Inv, Reconciles, CheckDeadline, Promote, Close;
    var s1 := CheckDeadline(s, p);
    CheckDeadlineReconciles(s, p);
    CheckDeadlineKeeps(s, p);
    var s2 := Promote(s1, cfg, p).state;
    PromoteReconciles(s1, cfg, p);
    PromoteKeeps(s1, cfg, p);
    ReconcilesTransitive(s, s1, s2, p);
    CloseKeeps(s2, p);
    CloseReconciles(s2, p);
    ReconcilesTransitive(s, s2, Close(s2, p), p);
  }

  // Receipts cover exactly the issued rewards' rounds, no round twice, and a receipt is submitted
  // exactly when its settlement is on file, with the same transaction.
  ghost predicate ReceiptOk(s: State, c: Id)
    requires c in s.receipts
  {
    var receipt := s.receipts[c];
    && receipt.claimId == c
    && receipt.rewardTokens == ROUND_REWARD_TOKENS * |receipt.roundIds|
    && Elements(receipt.roundIds) <= IssuedRounds(s.rewards)
    && (receipt.status == Submitted <==> c in s.submissions)
    && receipt.lastKnownTxid == (if c in s.submissions then Some(s.submissions[c].txid) else None)
  }

  ghost predicate Books(s: State) {
    && (forall c :: c in s.receipts ==> ReceiptOk(s, c))
    && (forall c, d :: c in s.receipts && d in s.receipts && c != d ==>
          Elements(s.receipts[c].roundIds) !! Elements(s.receipts[d].roundIds))
    && (forall id :: id in IssuedRounds(s.rewards) ==> exists c :: c in s.receipts && id in s.receipts[c].roundIds)
    && s.submissions.Keys <= s.receipts.Keys
  }

  lemma QuietBooks(s: State, t: State)
    requires Books(s) && Quiet(s, t)
    ensures Books(t)
  {
  }

  lemma {:induction false} TokensAre(rewards: map<Id, Reward>, claimIds: seq<Id>, n: nat)
    requires n <= |claimIds|
    requires forall i :: 0 <= i < n ==>
      claimIds[i] in rewards && rewards[claimIds[i]].rewardTokens == ROUND_REWARD_TOKENS
    ensures TokensOf(rewards, claimIds, n) == ROUND_REWARD_TOKENS * n
  {
    if n > 0 {
      TokensAre(rewards, claimIds, n - 1);
    }
  }

  lemma ClaimableTokensAre(s: State, claimIds: seq<Id>)
    requires Inv(s) && AllClaimable(s.rewards, claimIds)
    ensures TokensOf(s.rewards, claimIds, |claimIds|) == ROUND_REWARD_TOKENS * |RoundsOf(s.rewards, claimIds)|
  {
    hide RoundOk, CountersOk, PendingOk, WinsOk;
    assert forall c :: c in s.rewards ==> RewardOk(s, c);
    TokensAre(s.rewards, claimIds, |claimIds|);
  }

  lemma NotIssuedYet(s: State, c: Id)
    requires Inv(s) && c in s.rewards && s.rewards[c].status == Claimable
    ensures s.rewards[c].roundId !in IssuedRounds(s.rewards)
  {
    hide RoundOk, CountersOk, PendingOk, Filed;
  }

  lemma IssuedBy(s: State, claimIds: seq<Id>)
    requires Inv(s) && AllClaimable(s.rewards, claimIds)
    ensures IssuedRounds(MarkIssued(s.rewards, claimIds))
         == IssuedRounds(s.rewards) + Elements(RoundsOf(s.rewards, claimIds))
    ensures IssuedRounds(s.rewards) !! Elements(RoundsOf(s.rewards, claimIds))
  {
    hide Inv;
    var rounds := RoundsOf(s.rewards, claimIds);
    var after := MarkIssued(s.rewards, claimIds);
    forall id | id in Elements(rounds) ensures id in IssuedRounds(after) && id !in IssuedRounds(s.rewards) {
      var i :| 0 <= i < |rounds| && rounds[i] == id;
      assert claimIds[i] in after && after[claimIds[i]].status == ReceiptIssued;
      NotIssuedYet(s, claimIds[i]);
    }
    forall id | id in IssuedRounds(s.rewards) ensures id in IssuedRounds(after) {
      var c :| c in s.rewards && s.rewards[c].status == ReceiptIssued && s.rewards[c].roundId == id;
      assert after[c].status == ReceiptIssued && after[c].roundId == id;
    }
    forall id | id in IssuedRounds(after) ensures id in IssuedRounds(s.rewards) || id in Elements(rounds) {
      var c :| c in after && after[c].status == ReceiptIssued && after[c].roundId == id;
      if c in claimIds {
        var i :| 0 <= i < |claimIds| && claimIds[i] == c;
        assert rounds[i] == id;
      }
    }
  }

  lemma IssueBooks(s: State, claimIds: seq<Id>, receipt: Receipt)
    requires Inv(s) && Books(s) && AllClaimable(s.rewards, claimIds) && receipt.claimId !in s.receipts
    requires receipt.roundIds == RoundsOf(s.rewards, claimIds)
    requires receipt.rewardTokens == TokensOf(s.rewards, claimIds, |claimIds|)
    requires receipt.status == Issued && receipt.lastKnownTxid == None
    ensures Books(s.(rewards := MarkIssued(s.rewards, claimIds), receipts := s.receipts[receipt.claimId := receipt]))
  {
    hide Inv, MarkIssued, IssuedRounds, RoundsOf, TokensOf;
    var t := s.(rewards := MarkIssued(s.rewards, claimIds), receipts := s.receipts[receipt.claimId := receipt]);
    IssuedBy(s, claimIds);
    ClaimableTokensAre(s, claimIds);
    forall c | c in t.receipts ensures ReceiptOk(t, c) {
      if c != receipt.claimId { assert ReceiptOk(s, c); }
    }
    NewReceiptDisjoint(s, t, receipt);
  }

  lemma NewReceiptDisjoint(s: State, t: State, receipt: Receipt)
    requires Books(s) && receipt.claimId !in s.receipts && t.receipts == s.receipts[receipt.claimId := receipt]
    requires IssuedRounds(t.rewards) == IssuedRounds(s.rewards) + Elements(receipt.roundIds)
    requires IssuedRounds(s.rewards) !! Elements(receipt.roundIds)
    ensures forall c, d :: c in t.receipts && d in t.receipts && c != d ==>
      Elements(t.receipts[c].roundIds) !! Elements(t.receipts[d].roundIds)
    ensures forall id :: id in IssuedRounds(t.rewards) ==> exists c :: c in t.receipts && id in t.receipts[c].roundIds
  {
    hide IssuedRounds;
    forall c | c in s.receipts
      ensures Elements(s.receipts[c].roundIds) !! Elements(receipt.roundIds)
    {
      assert ReceiptOk(s, c);
    }
    forall id | id in IssuedRounds(t.rewards) ensures exists c :: c in t.receipts && id in t.receipts[c].roundIds {
      if id in IssuedRounds(s.rewards) {
        var c :| c in s.receipts && id in s.receipts[c].roundIds;
        assert c in t.receipts && id in t.receipts[c].roundIds;
      } else {
        assert receipt.claimId in t.receipts && id in t.receipts[receipt.claimId].roundIds;
      }
    }
  }

  // A request's whole effect on a state that satisfies the invariant.
  ghost predicate Kept(s: State, t: State) {
    Inv(t) && Books(t) && Grows(s, t) && RoundAdvances(s, t)
  }

  lemma KeptByPass(s: State, cfg: Config, p: Pass)
    requires Inv(s) && Books(s) && FreshPass(s, p)
    ensures Kept(s, Reconcile(s, cfg, p).state) && Reconciles(s, Reconcile(s, cfg, p).state, p)
  {
    hide Inv, Books, Reconcile;
    ReconcileKeeps(s, cfg, p);
    QuietBooks(s, Reconcile(s, cfg, p).state);
  }

  lemma KeptTransitive(s: State, t: State, u: State)
    requires Kept(s, t) && Kept(t, u)
    ensures Kept(s, u)
  {
    hide Inv, Books, Grows, RoundAdvances;
    GrowsTransitive(s, t, u);
    RoundAdvancesTransitive(s, t, u);
  }

  // Steps that touch only miners and the active round.
  lemma LocalGrows(s: State, t: State)
    requires t.rewards == s.rewards && t.reservations == s.reservations && t.receipts == s.receipts
    requires t.submissions == s.submissions && SameMiners(s.miners, t.miners) && s.roundCounter <= t.roundCounter
    ensures Grows(s, t) && Quiet(s, t)
  {
  }

  lemma EnsureRoundKeeps(s: State, cfg: Config, p: Pass, o: Opening)
    requires Inv(s) && Books(s) && FreshPass(s, p) && o.roundId !in RoundNames(s)
    ensures Kept(s, EnsureRound(s, cfg, p, o).state)
    ensures EnsureRound(s, cfg, p, o).state.rewards.Keys <= s.rewards.Keys + {p.claimId}
    ensures EnsureRound(s, cfg, p, o).state.reservations.Keys <= s.reservations.Keys + {p.reservationId}
    ensures SubmissionNames(EnsureRound(s, cfg, p, o).state) <= SubmissionNames(s)
  {
    hide Inv, Books, Reconcile;
    KeptByPass(s, cfg, p);
    var r := Reconcile(s, cfg, p);
    if r.failure.None? && r.state.active.None? {
      var t := EnsureRound(s, cfg, p, o).state;
      assert FreshOpening(r.state, o) by {
        forall c | c in r.state.rewards ensures r.state.rewards[c].roundId != o.roundId {
          assert r.state.rewards[c].roundId in RoundNames(r.state);
        }
      }
      OpenKeeps(r.state, cfg, o);
      LocalGrows(r.state, t);
      QuietBooks(r.state, t);
      GrowsTransitive(s, r.state, t);
    }
  }

  lemma LocalKept(s: State, t: State)
    requires Books(s) && Inv(t)
    requires t.rewards == s.rewards && t.reservations == s.reservations && t.receipts == s.receipts
    requires t.submissions == s.submissions && SameMiners(s.miners, t.miners) && RoundAdvances(s, t)
    ensures Kept(s, t)
  {
    hide Inv, Books;
    LocalGrows(s, t);
    QuietBooks(s, t);
  }

  lemma TouchKept(s: State, m: Id, miner: Miner)
    requires Inv(s) && Books(s) && m in s.miners
    requires miner.totalWins == s.miners[m].totalWins && miner.totalRewards == s.miners[m].totalRewards
    requires SameIdentity(s.miners[m], miner)
    ensures Kept(s, SetMiner(s, m, miner))
  {
    hide Inv, Books;
    TouchMinerKeeps(s, m, miner);
    LocalKept(s, SetMiner(s, m, miner));
  }

  lemma JoinKept(s: State, cfg: Config, m: Id, p: Pass, o: Opening)
    requires Inv(s) && Books(s) && m in s.miners && FreshPass(s, p) && o.roundId !in RoundNames(s)
    ensures Kept(s, JoinRound(s, cfg, m, p, o).state)
  {
    hide Inv, Books, EnsureRound;
    EnsureRoundKeeps(s, cfg, p, o);
    var e := EnsureRound(s, cfg, p, o);
    if e.failure.None? {
      TouchKept(e.state, m, e.state.miners[m].(currentRoundId := Some(e.state.active.value.roundId)));
      KeptTransitive(s, e.state, JoinRound(s, cfg, m, p, o).state);
    }
  }

  lemma EnqueueKept(s: State, m: Id, submissionId: Id, receivedAt: Time)
    requires Inv(s) && Books(s) && s.active.Some? && m in s.miners && m !in s.active.value.attempted
    requires submissionId !in SubmissionNames(s)
    ensures Kept(s, Attempt(s, m, submissionId))
    ensures Kept(s, Enqueue(Attempt(s, m, submissionId), m, submissionId, receivedAt))
  {
    hide WinsOk, CountersOk, PendingOk, Filed, Books, FirstComeFirstServed, Distinct, Linked, Holder;
    var t := Attempt(s, m, submissionId);
    AttemptKeeps(s, m, submissionId);
    LocalKept(s, t);
    var queue := s.active.value.candidates;
    forall i | 0 <= i < |queue| ensures queue[i].minerId != m && queue[i].submissionId != submissionId {
      assert queue[i].submissionId in SubmissionNames(s);
    }
    EnqueueKeeps(t, m, submissionId, receivedAt);
    LocalKept(s, Enqueue(t, m, submissionId, receivedAt));
  }

  lemma SubmitSolutionKept(s: State, cfg: Config, r: Request)
    requires r.SubmitSolution? && Inv(s) && Books(s) && Fresh(s, r)
    ensures Kept(s, OnSubmitSolution(s, cfg, r).state)
  {
    hide Inv, Books, EnsureRound, Reconcile, SubmissionNames, RoundNames, Grows, AnswerRound;
    if r.minerId !in s.miners {
      LocalKept(s, s);
      return;
    }
    EnsureRoundKeeps(s, cfg, r.pass, r.opening);
    var e := EnsureRound(s, cfg, r.pass, r.opening);
    if e.failure.None? {
      AnswerKept(e.state, cfg, r);
      KeptTransitive(s, e.state, AnswerRound(e.state, cfg, r).state);
    }
  }

  // What becomes of an answer, from the round it has been given on.
  lemma AnswerKept(e: State, cfg: Config, r: Request)
    requires r.SubmitSolution? && Inv(e) && Books(e) && e.active.Some? && r.minerId in e.miners
    requires FreshPass(e, r.again) && r.submissionId !in SubmissionNames(e)
    ensures Kept(e, AnswerRound(e, cfg, r).state)
  {
    hide Inv, Books, Reconcile, Grows;
    var round := e.active.value;
    var s1 := SetMiner(e, r.minerId, e.miners[r.minerId].(currentRoundId := Some(round.roundId)));
    TouchKept(e, r.minerId, s1.miners[r.minerId]);
    var final := AnswerRound(e, cfg, r).state;
    if final == s1 {
      return;
    } else if r.minerId in round.attempted || round.expiresAt <= r.expiryCheck {
      KeptByPass(s1, cfg, r.again);
      KeptTransitive(e, s1, final);
    } else {
      EnqueueKept(s1, r.minerId, r.submissionId, r.receivedAt);
      var s2 := Attempt(s1, r.minerId, r.submissionId);
      if r.answer != round.expectedAnswer {
        KeptTransitive(e, s1, s2);
      } else {
        var s3 := Enqueue(s2, r.minerId, r.submissionId, r.receivedAt);
        KeptTransitive(e, s1, s3);
        KeptByPass(s3, cfg, r.again);
        KeptTransitive(e, s3, final);
      }
    }
  }

  // A pending reward found through the index is the one the active round holds for its candidate, so
  // a payment for it always meets its own round.
  lemma PendingIsHeld(s: State, reservationId: Id) returns (k: nat, reward: Reward)
    requires Inv(s) && RewardByReservation(s, reservationId).Some?
    requires RewardByReservation(s, reservationId).value.status == PaymentPending
    ensures Holds(s, k, reward) && RewardByReservation(s, reservationId) == Some(reward)
    ensures reward.reservationId == reservationId
  {
    hide RoundOk, WinsOk, CountersOk;
    var found := RewardByReservation(s, reservationId).value;
    assert RewardOk(s, s.reservations[reservationId]);
    k, reward := HolderIs(s);
  }

  lemma ExpireKept(s: State, k: nat, reward: Reward, status: CandidateStatus, p: Pass)
    requires Inv(s) && Books(s) && Holds(s, k, reward) && (status == TimedOut || status == PaymentRejected)
    requires FreshPass(s, p)
    ensures Kept(s, Expire(s, reward, status)) && FreshPass(Expire(s, reward, status), p)
  {
    hide Inv, Books;
    ExpireKeeps(s, k, reward, status);
    ExpireReconciles(s, k, reward, status, p);
    QuietBooks(s, Expire(s, reward, status));
  }

  lemma AfterExpiryKept(s: State, t: State, cfg: Config, again: Pass, response: Response)
    requires Kept(s, t) && FreshPass(t, again)
    ensures Kept(s, AfterExpiry(t, cfg, again, response).state)
  {
    hide Inv, Books, Grows;
    KeptByPass(t, cfg, again);
    KeptTransitive(s, t, Reconcile(t, cfg, again).state);
  }

  lemma WinKept(s: State, k: nat, reward: Reward, txid: Text, provider: Text, now: Time)
    requires Inv(s) && Books(s) && Holds(s, k, reward)
    ensures Kept(s, Win(s, reward, txid, provider, now))
  {
    hide Inv, Books;
    var t := Win(s, reward, txid, provider, now);
    WinKeeps(s, k, reward, txid, provider, now);
    ChangeOne(s, t, reward.claimId, t.rewards[reward.claimId]);
    QuietBooks(s, t);
  }

  lemma SettleKept(s: State, cfg: Config, r: Request, reward: Reward)
    requires r.SubmitClaimPayment? && Inv(s) && Books(s) && FreshPass(s, r.again)
    requires RewardByReservation(s, r.payment.reservationId) == Some(reward) && reward.minerId in s.miners
    ensures Kept(s, SettlePayment(s, cfg, r, reward).state)
  {
    hide Inv, Books, Grows, Reconcile, ValidatePayment;
    if reward.status == PaymentPending {
      var k, held := PendingIsHeld(s, r.payment.reservationId);
      ExpireKept(s, k, reward, TimedOut, r.again);
      ExpireKept(s, k, reward, PaymentRejected, r.again);
      var pay := r.payment;
      AfterExpiryKept(s, Expire(s, reward, TimedOut), cfg, r.again,
                      PaymentResult(ReservationExpired, reward.claimId, pay.txid, pay.provider, r.now));
      LocalKept(s, s);
      match ValidatePayment(cfg, r.lookup)
      case Threw(_) =>
      case Returned((accepted, provider)) =>
        AfterExpiryKept(s, Expire(s, reward, PaymentRejected), cfg, r.again,
                        PaymentResult(Rejected, reward.claimId, pay.txid, Some(provider), r.now));
        WinKept(s, k, reward, pay.txid, provider, r.now);
    } else {
      LocalKept(s, s);
    }
  }

  lemma SubmitClaimPaymentKept(s: State, cfg: Config, r: Request)
    requires r.SubmitClaimPayment? && Inv(s) && Books(s) && Fresh(s, r)
    ensures Kept(s, OnSubmitClaimPayment(s, cfg, r).state)
  {
    hide Inv, Books, Grows, Reconcile, SettlePayment;
    KeptByPass(s, cfg, r.pass);
    var pass := Reconcile(s, cfg, r.pass);
    var t := OnSubmitClaimPayment(s, cfg, r).state;
    if t != pass.state {
      var reward := RewardByReservation(pass.state, r.payment.reservationId).value;
      SettleKept(pass.state, cfg, r, reward);
      KeptTransitive(s, pass.state, t);
    }
  }

  lemma RequestClaimReceiptKept(s: State, cfg: Config, r: Request)
    requires r.RequestClaimReceipt? && Inv(s) && Books(s) && Fresh(s, r)
    ensures Kept(s, OnRequestClaimReceipt(s, cfg, r).state)
  {
    hide Inv, Books, Reconcile;
    KeptByPass(s, cfg, r.pass);
    var t := Reconcile(s, cfg, r.pass).state;
    var u := OnRequestClaimReceipt(s, cfg, r).state;
    if u != t {
      var receipt := u.receipts[r.receiptId];
      IssueKeeps(t, r.claimIds, r.receiptId, receipt);
      IssueBooks(t, r.claimIds, receipt);
      IssueGrows(t, u, r.claimIds, r.receiptId);
      KeptTransitive(s, t, u);
    }
  }

  lemma IssueGrows(s: State, t: State, claimIds: seq<Id>, receiptId: Id)
    requires AllClaimable(s.rewards, claimIds) && receiptId !in s.receipts && receiptId in t.receipts
    requires t == s.(rewards := MarkIssued(s.rewards, claimIds),
                     receipts := s.receipts[receiptId := t.receipts[receiptId]])
    ensures Grows(s, t)
  {
  }

  lemma InvStays(s: State, t: State)
    requires Inv(s) && t.rewards == s.rewards && t.reservations == s.reservations && t.miners == s.miners
    requires t.active == s.active && t.roundCounter == s.roundCounter
    ensures Inv(t)
  {
  }

  // The claim is submitted: its settlement goes on file and its receipt says so.
  lemma SubmittedBooks(s: State, t: State, c: Id, settled: Settlement)
    requires Books(s) && c in s.receipts && c !in s.submissions
    requires t.rewards == s.rewards && t.submissions == s.submissions[c := settled]
    requires t.receipts == s.receipts[c := s.receipts[c].(status := Submitted, lastKnownTxid := Some(settled.txid))]
    ensures Books(t)
  {
    hide IssuedRounds;
    forall d | d in t.receipts ensures ReceiptOk(t, d) { assert ReceiptOk(s, d); }
    forall id | id in IssuedRounds(t.rewards) ensures exists d :: d in t.receipts && id in t.receipts[d].roundIds {
      var d :| d in s.receipts && id in s.receipts[d].roundIds;
      assert d in t.receipts && id in t.receipts[d].roundIds;
    }
  }

  lemma SubmittedGrows(s: State, t: State, c: Id, settled: Settlement)
    requires c in s.receipts && s.receipts[c].status == Issued && c !in s.submissions
    requires t == s.(submissions := s.submissions[c := settled],
                     receipts := s.receipts[c := s.receipts[c].(status := Submitted,
                                                                lastKnownTxid := Some(settled.txid))])
    ensures Grows(s, t)
  {
  }

  lemma SubmitClaimKept(s: State, claim: SignedClaim, settled: Option<Settlement>)
    requires Inv(s) && Books(s)
    ensures Kept(s, OnSubmitClaim(s, claim, settled).state)
  {
    hide Inv, IssuedRounds;
    var t := OnSubmitClaim(s, claim, settled).state;
    if t == s {
      LocalKept(s, s);
    } else {
      InvStays(s, t);
      assert ReceiptOk(s, claim.claimId);
      hide Books, Grows;
      SubmittedBooks(s, t, claim.claimId, settled.value);
      SubmittedGrows(s, t, claim.claimId, settled.value);
    }
  }

  // Every request keeps the invariant and the books and loses nothing, however it ends.
  lemma StepKeeps(s: State, cfg: Config, r: Request)
    requires Inv(s) && Books(s) && Fresh(s, r)
    ensures Kept(s, Step(s, cfg, r).state)
  {
    hide Inv, Books, Reconcile, EnsureRound, SettlePayment, Grows;
    match r
    case Register(m, payout, funding, kind, network) =>
      RegisterKeeps(s, m, Miner(payout, funding, kind, network, false, 0, 0, None, None));
      LocalKept(s, Step(s, cfg, r).state);
    case StopMining(m) =>
      LocalKept(s, s);
      if m in s.miners { TouchKept(s, m, s.miners[m].(mining := false, currentRoundId := None)); }
    case StartMining(m, p, o) =>
      LocalKept(s, s);
      if m in s.miners {
        var s1 := SetMiner(s, m, s.miners[m].(mining := true));
        TouchKept(s, m, s1.miners[m]);
        JoinKept(s1, cfg, m, p, o);
        KeptTransitive(s, s1, JoinRound(s1, cfg, m, p, o).state);
      }
    case GetCurrentRound(m, p, o) =>
      LocalKept(s, s);
      if m in s.miners { JoinKept(s, cfg, m, p, o); }
    case SubmitSolution(_, _, _, _, _, _, _, _, _) => SubmitSolutionKept(s, cfg, r);
    case GetMinerStatus(_, p) => KeptByPass(s, cfg, p);
    case ListClaimableRewards(_, p) => KeptByPass(s, cfg, p);
    case RequestClaimReceipt(_, _, _, _, _, _, _) => RequestClaimReceiptKept(s, cfg, r);
    case SubmitClaimPayment(_, _, _, _, _, _) => SubmitClaimPaymentKept(s, cfg, r);
    case GetClaimStatus(_) => LocalKept(s, s);
    case SubmitClaim(claim, settled) => SubmitClaimKept(s, claim, settled);
  }

  lemma {:induction false} RunKeeps(s: State, cfg: Config, rs: seq<Request>)
    requires Inv(s) && Books(s) && FreshRun(s, cfg, rs)
    ensures Kept(s, Run(s, cfg, rs))
    decreases |rs|
  {
    hide Inv, Books, Fresh, Step, Grows;
    if rs == [] {
      LocalKept(s, s);
    } else {
      var t := Step(s, cfg, rs[0]).state;
      StepKeeps(s, cfg, rs[0]);
      RunKeeps(t, cfg, rs[1..]);
      KeptTransitive(s, t, Run(s, cfg, rs));
    }
  }

  lemma InitialOk()
    ensures Inv(INITIAL) && Books(INITIAL)
  {
  }
}
