// What the two studio review screens do together to the points ledger and the
// balances: neither keeps "one credit per attempt", and a write that fails part
// way leaves a balance that no longer equals the sum of its ledger entries.

module RewardAudit {
  import opened DatabaseTypes
  import opened Settlement
  import StudioReviews
  import StudioProofs

  /** A profile's points balance equals the signed sum of its points entries. */
  predicate BalanceMatchesLedger(t: Tables, profileId: string) {
    profileId in t.wallets ==> t.wallets[profileId].pointsBalance == PointsSum(t.ledger, profileId)
  }

  /** A ledger that grew by one entry is the old ledger plus that entry. */
  lemma GrownLedger(old_: seq<LedgerEntry>, new_: seq<LedgerEntry>)
    requires old_ <= new_ && |new_| == |old_| + 1
    ensures new_ == old_ + [new_[|old_|]]
  {
    assert new_[..|old_|] == old_;
  }

  /** The approval button of the reviews screen passes the attempt's owner and
      its mission's total; the proofs screen derives the same two from the
      attempt. Started from the same tables, both fully successful approvals
      leave the same balances and append the same credit up to its id and reason. */
  lemma BothScreensCreditAlike(t: Tables, attemptId: string, reviewer: string, proofId: string,
                               now: string, reviewsEntryId: string, proofsEntryId: string)
    requires StudioProofs.RewardReady(t, attemptId)
    requires RewardCount(t.ledger, attemptId) != 1
    ensures var a := t.attempts[attemptId];
            var viaReviews := StudioReviews.Approve(t, attemptId, a.userProfileId,
                                                    TotalPoints(t.missions[a.missionId]), 0, now, reviewsEntryId);
            var viaProofs := StudioProofs.Review(t, reviewer, proofId, attemptId, Approved, 0, now, proofsEntryId);
            viaReviews.wallets == viaProofs.wallets
            && |viaReviews.ledger| == |viaProofs.ledger| == |t.ledger| + 1
            && viaReviews.ledger[..|t.ledger|] == viaProofs.ledger[..|t.ledger|]
            && viaReviews.ledger[|t.ledger|].(id := "", reason := None)
               == viaProofs.ledger[|t.ledger|].(id := "", reason := None)
  {
    var a := t.attempts[attemptId];
    var user, mission := a.userProfileId, t.missions[a.missionId];
    var reward := TotalPoints(mission);
    var credited := SetPointsBalance(t.wallets, user, PointsOf(t.wallets, user) + reward);
    var viaReviews := StudioReviews.Approve(t, attemptId, user, reward, 0, now, reviewsEntryId);
    assert viaReviews.wallets == credited;
    assert viaReviews.ledger == t.ledger + [RewardEntry(reviewsEntryId, user, reward, "Mission completed", attemptId, now)];
    var t1 := t.(proofs := StudioProofs.RecordProofDecision(t.proofs, proofId, Approved, reviewer));
    var t2 := t1.(attempts := StudioProofs.RecordDecision(t1.attempts, attemptId, Approved, reviewer, now));
    assert t2.attempts[attemptId].missionId == a.missionId && t2.attempts[attemptId].userProfileId == user;
    var viaProofs := StudioProofs.Review(t, reviewer, proofId, attemptId, Approved, 0, now, proofsEntryId);
    assert viaProofs == StudioProofs.GrantReward(t2, attemptId, 0, now, proofsEntryId);
    assert viaProofs.wallets == credited;
    assert viaProofs.ledger
           == t.ledger + [RewardEntry(proofsEntryId, user, reward, "Görev Onaylandı: " + mission.title, attemptId, now)];
  }

  /** The proofs screen has no duplicate check: approving the same attempt
      twice appends two credits and adds the reward twice. */
  lemma ProofsApproveTwiceCreditsTwice(t: Tables, reviewer: string, proofId: string, attemptId: string,
                                       now1: string, entry1: string, now2: string, entry2: string)
    requires StudioProofs.RewardReady(t, attemptId)
    ensures var t1 := StudioProofs.Review(t, reviewer, proofId, attemptId, Approved, 0, now1, entry1);
            var t2 := StudioProofs.Review(t1, reviewer, proofId, attemptId, Approved, 0, now2, entry2);
            var user := t.attempts[attemptId].userProfileId;
            var reward := TotalPoints(t.missions[t.attempts[attemptId].missionId]);
            RewardCount(t2.ledger, attemptId) == RewardCount(t.ledger, attemptId) + 2
            && (user in t.wallets ==>
                  t2.wallets[user].pointsBalance == t.wallets[user].pointsBalance + 2 * reward)
  {
    var t1 := StudioProofs.Review(t, reviewer, proofId, attemptId, Approved, 0, now1, entry1);
    var t2 := StudioProofs.Review(t1, reviewer, proofId, attemptId, Approved, 0, now2, entry2);
    assert StudioProofs.RewardReady(t1, attemptId);
    GrownLedger(t.ledger, t1.ledger);
    RewardCountAppend(t.ledger, t1.ledger[|t.ledger|], attemptId);
    GrownLedger(t1.ledger, t2.ledger);
    RewardCountAppend(t1.ledger, t2.ledger[|t1.ledger|], attemptId);
  }

  /** A reviews-screen approval leaves the proof pending: a proof queued on the
      proofs screen stays queued, while a fully approved attempt leaves the
      reviews screen's own queue. */
  lemma ReviewsApproveKeepsProofQueued(t: Tables, creatorId: string, proofId: string, attemptId: string,
                                       userId: string, points: int, failAt: nat, now: string, entryId: string)
    ensures var r := StudioReviews.Approve(t, attemptId, userId, points, failAt, now, entryId);
            (proofId in ProofQueue(t, creatorId) ==> proofId in ProofQueue(r, creatorId))
            && (StudioReviews.ApproveCompletes(t, attemptId, failAt) ==> attemptId !in ReviewQueue(r, creatorId))
  {
    var r := StudioReviews.Approve(t, attemptId, userId, points, failAt, now, entryId);
    if proofId in ProofQueue(t, creatorId) {
      var a := t.proofs[proofId].attemptId;
      assert r.attempts[a].missionId == t.attempts[a].missionId;
    }
    if StudioReviews.ApproveCompletes(t, attemptId, failAt) && attemptId in t.attempts {
      assert r.attempts[attemptId].status == Approved;
    }
  }

  /** A fresh attempt approved on the reviews screen cannot be approved there
      again (its one credit blocks the button), yet the proofs screen credits it
      a second time, after which the reviews screen's check lets a third credit
      through: two or more entries do not match `.single()`. */
  lemma CreditedThreeTimes(t: Tables, attemptId: string, reviewer: string, proofId: string,
                           now1: string, entry1: string, now2: string, entry2: string,
                           now3: string, entry3: string, nowRetry: string, entryRetry: string)
    requires StudioProofs.RewardReady(t, attemptId)
    requires RewardCount(t.ledger, attemptId) == 0
    ensures var user := t.attempts[attemptId].userProfileId;
            var reward := TotalPoints(t.missions[t.attempts[attemptId].missionId]);
            var t1 := StudioReviews.Approve(t, attemptId, user, reward, 0, now1, entry1);
            var t2 := StudioProofs.Review(t1, reviewer, proofId, attemptId, Approved, 0, now2, entry2);
            var t3 := StudioReviews.Approve(t2, attemptId, user, reward, 0, now3, entry3);
            StudioReviews.Approve(t1, attemptId, user, reward, 0, nowRetry, entryRetry) == t1
            && RewardCount(t3.ledger, attemptId) == 3
            && (user in t.wallets ==>
                  t3.wallets[user].pointsBalance == t.wallets[user].pointsBalance + 3 * reward)
  {
    var user := t.attempts[attemptId].userProfileId;
    var reward := TotalPoints(t.missions[t.attempts[attemptId].missionId]);
    var t1 := StudioReviews.Approve(t, attemptId, user, reward, 0, now1, entry1);
    GrownLedger(t.ledger, t1.ledger);
    RewardCountAppend(t.ledger, t1.ledger[|t.ledger|], attemptId);
    assert StudioReviews.ApproveBlocked(t1, attemptId, 0);
    assert StudioProofs.RewardReady(t1, attemptId);
    var t2 := StudioProofs.Review(t1, reviewer, proofId, attemptId, Approved, 0, now2, entry2);
    GrownLedger(t1.ledger, t2.ledger);
    RewardCountAppend(t1.ledger, t2.ledger[|t1.ledger|], attemptId);
    assert t2.attempts[attemptId].userProfileId == user;
    var t3 := StudioReviews.Approve(t2, attemptId, user, reward, 0, now3, entry3);
    GrownLedger(t2.ledger, t3.ledger);
    RewardCountAppend(t2.ledger, t3.ledger[|t2.ledger|], attemptId);
  }

  /** A fully successful reviews-screen approval keeps every balance equal to
      its ledger sum. */
  lemma ApproveKeepsBalancesMatched(t: Tables, attemptId: string, userId: string, points: int,
                                    now: string, entryId: string, profileId: string)
    requires BalanceMatchesLedger(t, profileId)
    ensures BalanceMatchesLedger(StudioReviews.Approve(t, attemptId, userId, points, 0, now, entryId), profileId)
  {
    var r := StudioReviews.Approve(t, attemptId, userId, points, 0, now, entryId);
    if !StudioReviews.ApproveBlocked(t, attemptId, 0) {
      GrownLedger(t.ledger, r.ledger);
      PointsSumAppend(t.ledger, r.ledger[|t.ledger|], profileId);
    }
  }

  /** When the reviews screen's ledger insert fails, the balance has already
      been credited: a nonzero reward leaves it off its ledger sum. */
  lemma ApproveLedgerFailureBreaksMatch(t: Tables, attemptId: string, userId: string, points: int,
                                        now: string, entryId: string)
    requires !StudioReviews.ApproveBlocked(t, attemptId, StudioReviews.LedgerInsertCall)
    requires userId in t.wallets && BalanceMatchesLedger(t, userId) && points != 0
    ensures !BalanceMatchesLedger(
              StudioReviews.Approve(t, attemptId, userId, points, StudioReviews.LedgerInsertCall, now, entryId), userId)
  {
  }

  /** A fully successful proofs-screen decision keeps every balance equal to
      its ledger sum. */
  lemma ReviewKeepsBalancesMatched(t: Tables, reviewer: string, proofId: string, attemptId: string,
                                   decision: MissionStatus, now: string, entryId: string, profileId: string)
    requires decision != Pending
    requires BalanceMatchesLedger(t, profileId)
    ensures BalanceMatchesLedger(StudioProofs.Review(t, reviewer, proofId, attemptId, decision, 0, now, entryId), profileId)
  {
    var r := StudioProofs.Review(t, reviewer, proofId, attemptId, decision, 0, now, entryId);
    if decision == Approved && StudioProofs.RewardReady(t, attemptId) {
      GrownLedger(t.ledger, r.ledger);
      PointsSumAppend(t.ledger, r.ledger[|t.ledger|], profileId);
    }
  }

  /** The proofs screen ignores a failed wallet update: the credit is in the
      ledger but not in the balance. */
  lemma ReviewWalletFailureBreaksMatch(t: Tables, reviewer: string, proofId: string, attemptId: string,
                                       now: string, entryId: string)
    requires StudioProofs.RewardReady(t, attemptId)
    requires TotalPoints(t.missions[t.attempts[attemptId].missionId]) != 0
    requires t.attempts[attemptId].userProfileId in t.wallets
    requires BalanceMatchesLedger(t, t.attempts[attemptId].userProfileId)
    ensures !BalanceMatchesLedger(
              StudioProofs.Review(t, reviewer, proofId, attemptId, Approved, StudioProofs.WalletUpdateCall, now, entryId),
              t.attempts[attemptId].userProfileId)
  {
    var user := t.attempts[attemptId].userProfileId;
    var r := StudioProofs.Review(t, reviewer, proofId, attemptId, Approved, StudioProofs.WalletUpdateCall, now, entryId);
    GrownLedger(t.ledger, r.ledger);
    PointsSumAppend(t.ledger, r.ledger[|t.ledger|], user);
  }
}
