// What receipts, claims, listings and status requests answer.
module EngineReplies {
  import opened Common
  import opened EngineTypes
  import opened EngineSpec
  import opened EngineInvariant
  import opened EngineRuns
  import opened EnginePasses
  import opened EngineTheorems

  // What a miner registered with never changes.
  lemma IdentityIsKept(s: State, t: State, cfg: Config, m: Id)
    requires Reachable(s, cfg) && LeadsTo(s, t, cfg) && m in s.miners
    ensures m in t.miners && SameIdentity(s.miners[m], t.miners[m])
  {
    hide Inv, Books, RoundAdvances, Reachable, LeadsTo;
    ReachableIsKept(s, cfg);
    LaterIsKept(s, t, cfg);
  }

  // A registered miner starts idle, in no round, without wins, under what it registered with.
  lemma RegisteredAs(s: State, cfg: Config, m: Id, payout: Text, funding: Text, kind: Text, network: Text)
    ensures var t := Step(s, cfg, Register(m, payout, funding, kind, network)).state;
      && m in t.miners && t.miners[m].payoutAddress == payout && t.miners[m].fundingAddress == funding
      && t.miners[m].addressType == kind && t.miners[m].network == network
      && !t.miners[m].mining && t.miners[m].totalWins == t.miners[m].totalRewards == 0
      && t.miners[m].currentRoundId.None? && t.miners[m].lastSubmissionId.None?
      && t.rewards == s.rewards && t.active == s.active && t.miners.Keys == s.miners.Keys + {m}
  {
  }

  // ---- Receipts ----

  ghost predicate OnlyIssues(before: map<Id, Reward>, after: map<Id, Reward>, claimIds: seq<Id>) {
    && after.Keys == before.Keys
    && forall c :: c in before ==>
      after[c] == if c in claimIds then before[c].(status := ReceiptIssued) else before[c]
  }

  // Everything on a receipt: the address registered by its miner, 1000 tokens and the round of every listed claim
  // in the order of the list, and nonce, time and signature as drawn.
  ghost predicate ReceiptFor(s: State, r: Request, receipt: Receipt) {
    && r.RequestClaimReceipt? && r.minerId in s.miners && r.signature.Some?
    && receipt.claimId == r.receiptId
    && receipt.payoutAddress == s.miners[r.minerId].payoutAddress
    && receipt.rewardTokens == 1000 * |r.claimIds|
    && |receipt.roundIds| == |r.claimIds|
    && (forall i :: 0 <= i < |r.claimIds| ==>
          ClaimableBy(s.rewards, r.claimIds[i], r.minerId) && receipt.roundIds[i] == s.rewards[r.claimIds[i]].roundId)
    && receipt.nonce == r.nonce && receipt.issuedAt == r.issuedAt && receipt.signature == r.signature.value
    && receipt.status == Issued && receipt.lastKnownTxid.None?
  }

  // An answered receipt request hands out that receipt and files it, issues the listed rewards, and changes
  // nothing else after the reconciliation.
  lemma ReceiptSays(s: State, cfg: Config, r: Request) returns (receipt: Receipt)
    requires Reachable(s, cfg) && Fresh(s, r) && r.RequestClaimReceipt? && Step(s, cfg, r).reply.Returned?
    ensures Step(s, cfg, r).reply == Returned(ReceiptOf(receipt)) && ReceiptFor(s, r, receipt)
    ensures var t, u := Reconcile(s, cfg, r.pass).state, Step(s, cfg, r).state;
      && u.receipts == s.receipts[r.receiptId := receipt]
      && u.miners == s.miners && u.active == t.active && OnlyIssues(t.rewards, u.rewards, r.claimIds)
  {
    hide Inv, Books, Reachable, Reconcile, Step, OnlyIssues, ReceiptFor;
    ReachableIsKept(s, cfg);
    ReceiptRepeatsWhenRequestDoes(s, cfg, r);
    receipt := Step(s, cfg, r).reply.value.receipt;
    ReceiptEffect(s, cfg, r);
    ReceiptGiven(s, cfg, r);
  }

  lemma ReceiptEffect(s: State, cfg: Config, r: Request)
    requires r.RequestClaimReceipt? && Step(s, cfg, r).reply.Returned? && Step(s, cfg, r).reply.value.ReceiptOf?
    ensures var t, u := Reconcile(s, cfg, r.pass).state, Step(s, cfg, r).state;
      && u.receipts == s.receipts[r.receiptId := Step(s, cfg, r).reply.value.receipt]
      && u.miners == s.miners && u.active == t.active && OnlyIssues(t.rewards, u.rewards, r.claimIds)
  {
    hide Reconcile, MarkIssued, TokensOf, RoundsOf, OnlyIssues;
    Issues(Reconcile(s, cfg, r.pass).state.rewards, r.claimIds);
  }

  lemma ReceiptGiven(s: State, cfg: Config, r: Request)
    requires Inv(s) && Books(s) && Fresh(s, r) && r.RequestClaimReceipt? && Step(s, cfg, r).reply.Returned?
    requires Step(s, cfg, r).reply.value.ReceiptOf?
    requires Step(s, cfg, r).reply.value.receipt.rewardTokens == 1000 * |r.claimIds|
    ensures ReceiptFor(s, r, Step(s, cfg, r).reply.value.receipt)
  {
    hide Inv, Books, Reconcile, RoundAdvances, Issuable, MarkIssued, TokensOf, Grows, Reconciles;
    IssuedIffIssuable(s, cfg, r);
    IssuableIs(s, cfg, r);
    KeptByPass(s, cfg, r.pass);
    SameRounds(s, Reconcile(s, cfg, r.pass).state);
  }

  lemma SameRounds(s: State, t: State)
    requires Grows(s, t)
    ensures forall c :: c in s.rewards ==> c in t.rewards && t.rewards[c].roundId == s.rewards[c].roundId
  {
    forall c | c in s.rewards ensures t.rewards[c].roundId == s.rewards[c].roundId {
      assert Advances(s.rewards[c], t.rewards[c]);
    }
  }

  lemma Issues(rewards: map<Id, Reward>, claimIds: seq<Id>)
    ensures OnlyIssues(rewards, MarkIssued(rewards, claimIds), claimIds)
  {
  }

  lemma IssuableIs(s: State, cfg: Config, r: Request)
    requires r.RequestClaimReceipt? && Issuable(s, cfg, r)
    ensures Reconcile(s, cfg, r.pass).failure.None? && r.minerId in s.miners && r.signature.Some?
    ensures forall i :: 0 <= i < |r.claimIds| ==> ClaimableBy(s.rewards, r.claimIds[i], r.minerId)
  {
  }

  // A refused receipt request changes nothing after the reconciliation and says why: the miner is unknown, the
  // first unusable claim is missing or somebody else's, or is not claimable, or signing failed.
  lemma ReceiptRefused(s: State, cfg: Config, r: Request, i: nat)
    requires Inv(s) && Fresh(s, r) && r.RequestClaimReceipt? && Reconcile(s, cfg, r.pass).failure.None?
    requires i <= |r.claimIds| && forall j :: 0 <= j < i ==> ClaimableBy(s.rewards, r.claimIds[j], r.minerId)
    requires i < |r.claimIds| ==> !ClaimableBy(s.rewards, r.claimIds[i], r.minerId)
    ensures r.minerId !in s.miners ==>
      Step(s, cfg, r) == Result(Reconcile(s, cfg, r.pass).state, Threw(UnknownMiner))
    ensures r.minerId in s.miners && i < |r.claimIds| ==>
      var rewards, c := Reconcile(s, cfg, r.pass).state.rewards, r.claimIds[i];
      Step(s, cfg, r) == Result(Reconcile(s, cfg, r.pass).state,
        Threw(if c in rewards && rewards[c].minerId == r.minerId then RewardNotReady else RewardNotFound))
    ensures r.minerId in s.miners && i == |r.claimIds| && r.signature.None? ==>
      Step(s, cfg, r) == Result(Reconcile(s, cfg, r.pass).state, Threw(SigningFailed))
  {
    hide Inv, Reconcile, ReceiptObstacle, ClaimableBy;
    var t := Reconcile(s, cfg, r.pass).state;
    forall j | 0 <= j <= i && j < |r.claimIds|
      ensures ClaimableBy(t.rewards, r.claimIds[j], r.minerId) <==> ClaimableBy(s.rewards, r.claimIds[j], r.minerId)
    {
      ClaimableStays(s, cfg, r.pass, r.claimIds[j], r.minerId);
    }
    FirstObstacle(t, r.minerId, r.claimIds, 0, i);
  }

  lemma {:induction false} FirstObstacle(s: State, m: Id, claimIds: seq<Id>, from: nat, i: nat)
    requires from <= i <= |claimIds| && forall j :: from <= j < i ==> ClaimableBy(s.rewards, claimIds[j], m)
    requires i < |claimIds| ==> !ClaimableBy(s.rewards, claimIds[i], m)
    ensures ReceiptObstacle(s, m, claimIds, from) ==
      if i == |claimIds| then None
      else if claimIds[i] in s.rewards && s.rewards[claimIds[i]].minerId == m then Some(RewardNotReady)
      else Some(RewardNotFound)
    decreases i - from
  {
    if from < i {
      FirstObstacle(s, m, claimIds, from + 1, i);
    }
  }

  // ---- Submitting a claim ----

  predicate SameClaim(claim: SignedClaim) {
    claim.claimId == claim.preparedClaimId == claim.embeddedClaimId
  }

  // Every outcome of a submitted claim: identifiers that disagree, a receipt that is not on file, one that has
  // been submitted before, a claim that is not genuine, a provider that fails, and the settlement that is filed.
  lemma ClaimSubmission(s: State, cfg: Config, claim: SignedClaim, settled: Option<Settlement>)
    requires Reachable(s, cfg)
    ensures var c, result := claim.claimId, Step(s, cfg, SubmitClaim(claim, settled));
      if !SameClaim(claim) then result == Result(s, Threw(ClaimMismatch))
      else if c !in s.receipts then result == Result(s, Threw(UnknownClaim))
      else if c in s.submissions then result == Result(s, Returned(ClaimSubmitted(c, s.submissions[c])))
      else if !claim.genuine then result == Result(s, Threw(ClaimInvalid))
      else if settled.None? then result == Result(s, Threw(ProviderFailed))
      else
        && result.reply == Returned(ClaimSubmitted(c, settled.value))
        && result.state == s.(submissions := s.submissions[c := settled.value],
             receipts := s.receipts[c := s.receipts[c].(status := Submitted,
                                                        lastKnownTxid := Some(settled.value.txid))])
  {
    hide Inv, Reachable;
    ReachableIsKept(s, cfg);
    if claim.claimId in s.receipts {
      assert ReceiptOk(s, claim.claimId);
    }
  }

  // ---- Listings and status ----

  // A status request finds the receipt under the identifier before a reward, and changes nothing.
  lemma ClaimStatus(s: State, cfg: Config, c: Id)
    ensures Step(s, cfg, GetClaimStatus(c)).state == s
    ensures var reply := Step(s, cfg, GetClaimStatus(c)).reply;
      && (c in s.receipts ==> reply == Returned(ReceiptClaim(s.receipts[c].status, s.receipts[c].lastKnownTxid)))
      && (c !in s.receipts && c in s.rewards ==>
            reply == Returned(RewardClaim(s.rewards[c].status, s.rewards[c].paymentTxid)))
      && (c !in s.receipts && c !in s.rewards ==> reply == Threw(UnknownClaim))
  {
  }

  // So the transaction a status request reports is the settlement's for a submitted claim, and the accepted
  // payment's for a won reward.
  lemma ClaimStatusOverTime(s: State, cfg: Config, c: Id)
    requires Reachable(s, cfg)
    ensures var reply := Step(s, cfg, GetClaimStatus(c)).reply;
      && (c in s.submissions ==> reply == Returned(ReceiptClaim(Submitted, Some(s.submissions[c].txid))))
      && (c in s.receipts && c !in s.submissions ==> reply == Returned(ReceiptClaim(Issued, None)))
      && (c !in s.receipts && c in s.rewards ==>
            reply.Returned? && reply.value.RewardClaim?
            && (reply.value.lastTxid.Some? <==> reply.value.rewardStatus in {Claimable, ReceiptIssued}))
  {
    hide WinsOk, PendingOk, CountersOk, RoundOk, Reachable;
    ReachableIsKept(s, cfg);
    if c in s.receipts {
      assert ReceiptOk(s, c);
    } else if c in s.rewards {
      assert RewardOk(s, c);
    }
  }

  // The listing holds exactly the miner's rewards, of any status, as they are after the reconciliation.
  lemma ListsOwnRewards(s: State, cfg: Config, m: Id, p: Pass)
    ensures var result, t := Step(s, cfg, ListClaimableRewards(m, p)), Reconcile(s, cfg, p);
      && result.state == t.state
      && (result.reply.Returned? <==> t.failure.None? && m in s.miners)
      && (result.reply.Returned? ==>
            result.reply.value.Rewards?
            && var own, all := result.reply.value.rewards, t.state.rewards;
            forall c :: (c in own <==> c in all && all[c].minerId == m) && (c in own ==> own[c] == all[c]))
      && (t.failure.None? && m !in s.miners ==> result.reply == Threw(UnknownMiner))
  {
    hide Reconcile;
  }

  ghost function ClaimableOwn(rewards: map<Id, Reward>, m: Id): set<Id> {
    set c | c in rewards && ClaimableBy(rewards, c, m)
  }

  lemma {:induction false} SumOfThousands(m: map<Id, nat>)
    requires forall c :: c in m ==> m[c] == 1000
    ensures Sum(m) == 1000 * |m|
    decreases |m|
  {
    if m != map[] {
      var c :| c in m;
      SumTakeOut(m, c);
      SumOfThousands(m - {c});
    }
  }

  // A miner's status shows its record and 1000 tokens for each of its claimable rewards.
  lemma StatusSays(s: State, cfg: Config, m: Id, p: Pass)
    requires Reachable(s, cfg) && Fresh(s, GetMinerStatus(m, p))
    ensures var result, t := Step(s, cfg, GetMinerStatus(m, p)), Reconcile(s, cfg, p);
      && result.state == t.state
      && (result.reply.Returned? <==> t.failure.None? && m in s.miners)
      && (result.reply.Returned? ==>
            result.reply.value == MinerStatus(s.miners[m], 1000 * |ClaimableOwn(s.rewards, m)|))
  {
    hide Inv, Books, Reachable, Reconcile, RoundAdvances;
    ReachableIsKept(s, cfg);
    KeptByPass(s, cfg, p);
    var t := Reconcile(s, cfg, p).state;
    hide ClaimableTokens, ClaimableBy, ClaimableOwn;
    ThousandEach(t, m);
    forall c: Id ensures ClaimableBy(t.rewards, c, m) <==> ClaimableBy(s.rewards, c, m) {
      ClaimableStays(s, cfg, p, c, m);
    }
    SameOwn(s.rewards, t.rewards, m);
  }

  lemma ThousandEach(t: State, m: Id)
    requires Inv(t)
    ensures ClaimableTokens(t.rewards, m) == 1000 * |ClaimableOwn(t.rewards, m)|
  {
    hide Inv;
    var own := ClaimableOf(t.rewards, m);
    forall c | c in own ensures own[c] == 1000 {
      RewardFiled(t, c);
    }
    SumOfThousands(own);
    assert own.Keys == ClaimableOwn(t.rewards, m);
  }

  lemma SameOwn(a: map<Id, Reward>, b: map<Id, Reward>, m: Id)
    requires forall c: Id :: ClaimableBy(b, c, m) <==> ClaimableBy(a, c, m)
    ensures ClaimableOwn(a, m) == ClaimableOwn(b, m)
  {
    forall c: Id ensures c in ClaimableOwn(a, m) <==> c in ClaimableOwn(b, m) {
      assert ClaimableBy(b, c, m) <==> ClaimableBy(a, c, m);
    }
  }

  // Joining: after a request that is answered the miner is in the active round, which is the one it is told of.
  lemma JoinedRound(s: State, cfg: Config, r: Request)
    requires r.StartMining? || r.GetCurrentRound?
    ensures var result := Step(s, cfg, r);
      && (r.minerId !in s.miners ==> result == Result(s, Threw(UnknownMiner)))
      && (result.reply.Returned? ==>
            && result.state.active.Some? && r.minerId in result.state.miners
            && var round, miner := result.state.active.value, result.state.miners[r.minerId];
            && miner.currentRoundId == Some(round.roundId)
            && result.state.miners == s.miners[r.minerId := s.miners[r.minerId].(currentRoundId := Some(round.roundId),
                 mining := s.miners[r.minerId].mining || r.StartMining?)]
            && result.reply.value ==
                 if r.StartMining? then Done else CurrentRound(round.roundId, round.roundNumber, round.expiresAt))
      && (r.StartMining? && r.minerId in s.miners ==>
            r.minerId in result.state.miners && result.state.miners[r.minerId].mining)
  {
    hide Reconcile, EnsureRound;
  }

  // Stopping: the miner is idle and in no round, but keeps its place in the queue and everything else.
  lemma StoppedMining(s: State, cfg: Config, m: Id)
    ensures m !in s.miners ==> Step(s, cfg, StopMining(m)) == Result(s, Threw(UnknownMiner))
    ensures m in s.miners ==>
      Step(s, cfg, StopMining(m)) ==
      Result(s.(miners := s.miners[m := s.miners[m].(mining := false, currentRoundId := None)]), Returned(Done))
  {
  }
}
