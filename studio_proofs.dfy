// The studio "proofs" screen (app/studio/proofs/page.tsx): a decision writes
// the proof row, then the attempt row, and on approval re-reads the attempt
// and appends a ledger credit before the read-modify-write of the balance.
// Errors of the last two writes are ignored.

module StudioProofs {
  import opened DatabaseTypes
  import opened Settlement

  // The database calls of `handleReview`, numbered in the order they run.
  // `failAt == k` means call k returns an error; 0 means every call succeeds.
  const ProofUpdateCall := 1
  const AttemptUpdateCall := 2
  const AttemptReadCall := 3
  const LedgerInsertCall := 4
  const WalletReadCall := 5
  const WalletUpdateCall := 6

  /** `update({ review_status, reviewer_profile_id }).eq('id', proofId)`. */
  function RecordProofDecision(proofs: map<string, Proof>, proofId: string,
                               decision: MissionStatus, reviewer: string): (r: map<string, Proof>)
    ensures OnlyAt(proofs, r, proofId)
    ensures forall p | p in proofs :: r[p].attemptId == proofs[p].attemptId
    ensures proofId in proofs ==>
              r[proofId] == proofs[proofId].(reviewStatus := decision, reviewerProfileId := Some(reviewer))
  {
    if proofId in proofs
    then proofs[proofId := proofs[proofId].(reviewStatus := decision, reviewerProfileId := Some(reviewer))]
    else proofs
  }

  /** `update({ status, approved_at, reviewer_profile_id }).eq('id', attemptId)`. */
  function RecordDecision(attempts: map<string, MissionAttempt>, attemptId: string,
                          decision: MissionStatus, reviewer: string, now: string): (r: map<string, MissionAttempt>)
    ensures OnlyAt(attempts, r, attemptId)
    ensures forall a | a in attempts :: r[a].missionId == attempts[a].missionId
                                        && r[a].userProfileId == attempts[a].userProfileId
    ensures attemptId in attempts ==>
              r[attemptId] == attempts[attemptId].(
                status := decision,
                approvedAt := if decision == Approved then Some(now) else None,
                reviewerProfileId := Some(reviewer))
  {
    if attemptId in attempts
    then attempts[attemptId := attempts[attemptId].(
      status := decision,
      approvedAt := if decision == Approved then Some(now) else None,
      reviewerProfileId := Some(reviewer))]
    else attempts
  }

  /** The re-read attempt and its embedded mission both exist, so a reward is computed. */
  predicate RewardReady(t: Tables, attemptId: string) {
    attemptId in t.attempts && t.attempts[attemptId].missionId in t.missions
  }

  /** `handleReview` reaches its success toast and reload: both updates
      succeeded, and an approval did not dereference a missing mission. */
  predicate ReviewCompletes(t: Tables, attemptId: string, decision: MissionStatus, failAt: nat) {
    failAt != ProofUpdateCall && failAt != AttemptUpdateCall
    && !(decision == Approved && failAt != AttemptReadCall
         && attemptId in t.attempts && t.attempts[attemptId].missionId !in t.missions)
  }

  /** The tables after reviewer `reviewer` calls `handleReview(proofId, attemptId, decision)`. */
  function Review(t: Tables, reviewer: string, proofId: string, attemptId: string,
                  decision: MissionStatus, failAt: nat, now: string, entryId: string): (r: Tables)
    requires decision != Pending
    ensures r.missions == t.missions
    ensures OnlyAt(t.proofs, r.proofs, proofId) && OnlyAt(t.attempts, r.attempts, attemptId)
    ensures forall a | a in t.attempts :: r.attempts[a].missionId == t.attempts[a].missionId
                                          && r.attempts[a].userProfileId == t.attempts[a].userProfileId
    ensures forall p | p in t.proofs :: r.proofs[p].attemptId == t.proofs[p].attemptId
    ensures t.ledger <= r.ledger && |r.ledger| <= |t.ledger| + 1
    ensures forall u | u in t.wallets :: u in r.wallets && r.wallets[u].coinsBalance == t.wallets[u].coinsBalance
    // A failed proof update stops before anything is written.
    ensures failAt == ProofUpdateCall ==> r == t
    // The two row updates write exactly their listed columns.
    ensures failAt != ProofUpdateCall ==> r.proofs == RecordProofDecision(t.proofs, proofId, decision, reviewer)
    ensures failAt != ProofUpdateCall && failAt != AttemptUpdateCall ==>
              r.attempts == RecordDecision(t.attempts, attemptId, decision, reviewer, now)
    // Both rows take the outcome and record the reviewer.
    ensures failAt != ProofUpdateCall && proofId in t.proofs ==>
              r.proofs[proofId].reviewStatus == decision && r.proofs[proofId].reviewerProfileId == Some(reviewer)
    ensures failAt != ProofUpdateCall && failAt != AttemptUpdateCall && attemptId in t.attempts ==>
              r.attempts[attemptId].status == decision
              && r.attempts[attemptId].reviewerProfileId == Some(reviewer)
              && r.attempts[attemptId].approvedAt == (if decision == Approved then Some(now) else None)
    // A failed attempt update leaves the proof decided and grants nothing.
    ensures failAt == AttemptUpdateCall ==>
              r.attempts == t.attempts && r.wallets == t.wallets && r.ledger == t.ledger
    // Rejection never touches a wallet or the ledger.
    ensures decision == Rejected ==> r.wallets == t.wallets && r.ledger == t.ledger
    // A full approval appends one credit of the mission's total to the attempt's
    // owner and adds it to the balance, however many credits the attempt already has.
    ensures decision == Approved && failAt == 0 && RewardReady(t, attemptId) ==>
              var user := t.attempts[attemptId].userProfileId;
              var reward := TotalPoints(t.missions[t.attempts[attemptId].missionId]);
              |r.ledger| == |t.ledger| + 1
              && r.ledger[|t.ledger|].kind == Points && r.ledger[|t.ledger|].direction == Credit
              && r.ledger[|t.ledger|].amount == reward && r.ledger[|t.ledger|].profileId == user
              && RewardsAttempt(r.ledger[|t.ledger|], attemptId)
              && OnlyAt(t.wallets, r.wallets, user)
              && (user in t.wallets ==> r.wallets[user].pointsBalance == t.wallets[user].pointsBalance + reward)
    // The ledger error is ignored: the balance is credited with no entry written.
    ensures decision == Approved && failAt == LedgerInsertCall && RewardReady(t, attemptId) ==>
              var user := t.attempts[attemptId].userProfileId;
              r.ledger == t.ledger
              && (user in t.wallets ==>
                    r.wallets[user].pointsBalance
                    == t.wallets[user].pointsBalance + TotalPoints(t.missions[t.attempts[attemptId].missionId]))
    // Without the re-read attempt or its mission there is no reward.
    ensures !RewardReady(t, attemptId) || failAt == AttemptReadCall ==>
              r.wallets == t.wallets && r.ledger == t.ledger
    // Whatever fails, an approval writes no wallet but the owner's. The wallet
    // errors are ignored: a failed read overwrites the balance with the reward
    // alone, and a failed update leaves the credit written and the balance as it was.
    ensures decision == Approved && RewardReady(t, attemptId) ==>
              var user := t.attempts[attemptId].userProfileId;
              var reward := TotalPoints(t.missions[t.attempts[attemptId].missionId]);
              OnlyAt(t.wallets, r.wallets, user)
              && (failAt == WalletReadCall || failAt == WalletUpdateCall ==>
                    |r.ledger| == |t.ledger| + 1 && r.ledger[|t.ledger|].amount == reward
                    && r.ledger[|t.ledger|].profileId == user && RewardsAttempt(r.ledger[|t.ledger|], attemptId))
              && (user in t.wallets && failAt == WalletReadCall ==> r.wallets[user].pointsBalance == reward)
              && (failAt == WalletUpdateCall ==> r.wallets == t.wallets)
  {
    if failAt == ProofUpdateCall then t
    else
      var t1 := t.(proofs := RecordProofDecision(t.proofs, proofId, decision, reviewer));
      if failAt == AttemptUpdateCall then t1
      else
        var t2 := t1.(attempts := RecordDecision(t1.attempts, attemptId, decision, reviewer, now));
        if decision == Rejected then t2 else GrantReward(t2, attemptId, failAt, now, entryId)
  }

  /** The approval's third step on: re-read the attempt with its mission,
      append the credit, then read and rewrite the owner's points balance. */
  function GrantReward(t: Tables, attemptId: string, failAt: nat, now: string, entryId: string): (r: Tables)
    ensures r.missions == t.missions && r.proofs == t.proofs && r.attempts == t.attempts
    ensures t.ledger <= r.ledger && |r.ledger| <= |t.ledger| + 1
    ensures forall u | u in t.wallets :: u in r.wallets && r.wallets[u].coinsBalance == t.wallets[u].coinsBalance
    ensures !RewardReady(t, attemptId) || failAt == AttemptReadCall ==> r == t
    ensures RewardReady(t, attemptId) && failAt != AttemptReadCall ==>
              var user := t.attempts[attemptId].userProfileId;
              var reward := TotalPoints(t.missions[t.attempts[attemptId].missionId]);
              OnlyAt(t.wallets, r.wallets, user)
              && (failAt != LedgerInsertCall ==>
                    |r.ledger| == |t.ledger| + 1
                    && r.ledger[|t.ledger|].kind == Points && r.ledger[|t.ledger|].direction == Credit
                    && r.ledger[|t.ledger|].amount == reward && r.ledger[|t.ledger|].profileId == user
                    && RewardsAttempt(r.ledger[|t.ledger|], attemptId))
              && (failAt == LedgerInsertCall ==> r.ledger == t.ledger)
              && (user in t.wallets && failAt != WalletReadCall && failAt != WalletUpdateCall ==>
                    r.wallets[user].pointsBalance == t.wallets[user].pointsBalance + reward)
              && (failAt == WalletUpdateCall ==> r.wallets == t.wallets)
              // A failed wallet read counts as no balance: the reward alone is written.
              && (user in t.wallets && failAt == WalletReadCall ==> r.wallets[user].pointsBalance == reward)
  {
    if failAt == AttemptReadCall || !RewardReady(t, attemptId) then t
    else
      var attempt := t.attempts[attemptId];
      var mission := t.missions[attempt.missionId];
      var reward := TotalPoints(mission);
      var t1 := if failAt == LedgerInsertCall then t
                else t.(ledger := t.ledger + [RewardEntry(entryId, attempt.userProfileId, reward,
                                                          "Görev Onaylandı: " + mission.title, attemptId, now)]);
      var prior := if failAt == WalletReadCall then 0 else PointsOf(t1.wallets, attempt.userProfileId);
      if failAt == WalletUpdateCall then t1
      else t1.(wallets := SetPointsBalance(t1.wallets, attempt.userProfileId, prior + reward))
  }

  /** The screen's state and the store it writes. */
  class ProofsPage {
    const db: Db
    /** The `creators.id` the viewer owns. */
    const creatorId: string
    /** Ids of the proofs listed (the last load). */
    var proofs: set<string>
    /** The proof being decided; every decision button is disabled while it is set. */
    var actionLoading: Option<string>

    constructor (db: Db, creatorId: string)
      ensures this.db == db && this.creatorId == creatorId
      ensures proofs == ProofQueue(db.Snapshot(), creatorId) && actionLoading == None
    {
      this.db := db;
      this.creatorId := creatorId;
      proofs := ProofQueue(db.Snapshot(), creatorId);
      actionLoading := None;
    }

    predicate ButtonsDisabled()
      reads this
    {
      actionLoading.Some?
    }

    /** Steps three to six of an approval. */
    method CreditAttempt(attemptId: string, failAt: nat, now: string, entryId: string)
      modifies db
      ensures db.Snapshot() == GrantReward(old(db.Snapshot()), attemptId, failAt, now, entryId)
    {
      if failAt == AttemptReadCall || attemptId !in db.attempts || db.attempts[attemptId].missionId !in db.missions {
        return;
      }
      var attempt := db.attempts[attemptId];
      var mission := db.missions[attempt.missionId];
      var reward := TotalPoints(mission);
      if failAt != LedgerInsertCall {
        db.ledger := db.ledger + [RewardEntry(entryId, attempt.userProfileId, reward,
                                              "Görev Onaylandı: " + mission.title, attemptId, now)];
      }
      var prior := 0;
      if failAt != WalletReadCall {
        var balance := db.SelectPointsBalance(attempt.userProfileId);
        prior := balance.GetOr(0);
      }
      if failAt != WalletUpdateCall {
        db.wallets := SetPointsBalance(db.wallets, attempt.userProfileId, prior + reward);
      }
    }

    /** `handleReview`; `user` is the signed-in reviewer, if any. */
    method HandleReview(user: Option<string>, proofId: string, attemptId: string,
                        decision: MissionStatus, failAt: nat, now: string, entryId: string)
      requires decision != Pending
      modifies this, db
      // Signed out: it returns before its `finally`, so the spinner is never cleared.
      ensures user.None? ==>
                db.Snapshot() == old(db.Snapshot()) && proofs == old(proofs) && actionLoading == Some(proofId)
      ensures user.Some? ==>
                db.Snapshot() == Review(old(db.Snapshot()), user.value, proofId, attemptId, decision, failAt, now, entryId)
                && actionLoading == None
                && proofs == if ReviewCompletes(old(db.Snapshot()), attemptId, decision, failAt)
                             then ProofQueue(db.Snapshot(), creatorId) else old(proofs)
    {
      actionLoading := Some(proofId);
      if user.None? {
        return;
      }
      var reviewer := user.value;
      if failAt == ProofUpdateCall {
        actionLoading := None;
        return;
      }
      db.proofs := RecordProofDecision(db.proofs, proofId, decision, reviewer);
      if failAt == AttemptUpdateCall {
        actionLoading := None;
        return;
      }
      db.attempts := RecordDecision(db.attempts, attemptId, decision, reviewer, now);
      if decision == Approved {
        if failAt != AttemptReadCall && attemptId in db.attempts && db.attempts[attemptId].missionId !in db.missions {
          // `attempt.mission.points_base` on a null mission throws.
          actionLoading := None;
          return;
        }
        CreditAttempt(attemptId, failAt, now, entryId);
      }
      proofs := ProofQueue(db.Snapshot(), creatorId);
      actionLoading := None;
    }
  }
}
