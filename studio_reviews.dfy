// The studio "reviews" screen (app/studio/reviews/page.tsx): approving an
// attempt writes its status, then the reviewer's read-modify-write of the
// fan's points balance, then a ledger credit, with no transaction around them.

module StudioReviews {
  import opened DatabaseTypes
  import opened Settlement

  // The database calls of `handleApprove`, numbered in the order they run.
  // `failAt == k` means call k returns an error; 0 means every call succeeds.
  const DuplicateCheckCall := 1
  const StatusUpdateCall := 2
  const WalletReadCall := 3
  const WalletUpdateCall := 4
  const LedgerInsertCall := 5

  /** The duplicate check finds its row: exactly one entry refers to the
      attempt and the lookup did not fail (a failed lookup yields no row). */
  predicate ApproveBlocked(t: Tables, attemptId: string, failAt: nat) {
    failAt != DuplicateCheckCall && RewardCount(t.ledger, attemptId) == 1
  }

  /** `handleApprove` reaches its success toast and refetch. */
  predicate ApproveCompletes(t: Tables, attemptId: string, failAt: nat) {
    !ApproveBlocked(t, attemptId, failAt)
    && failAt != StatusUpdateCall && failAt != WalletUpdateCall && failAt != LedgerInsertCall
  }

  /** The tables after `handleApprove(attemptId, userId, points)`. */
  function Approve(t: Tables, attemptId: string, userId: string, points: int,
                   failAt: nat, now: string, entryId: string): (r: Tables)
    // Never touches missions or proofs: the proof keeps its review status.
    ensures r.missions == t.missions && r.proofs == t.proofs
    // Only this attempt, only the points balance of `userId`.
    ensures OnlyAt(t.attempts, r.attempts, attemptId)
    ensures forall a | a in t.attempts :: r.attempts[a].missionId == t.attempts[a].missionId
                                          && r.attempts[a].userProfileId == t.attempts[a].userProfileId
    ensures OnlyAt(t.wallets, r.wallets, userId)
    ensures forall u | u in t.wallets :: r.wallets[u].coinsBalance == t.wallets[u].coinsBalance
    // The ledger is only appended to, by at most one entry.
    ensures t.ledger <= r.ledger && |r.ledger| <= |t.ledger| + 1
    // Exactly one earlier entry blocks everything; none or several block nothing.
    ensures ApproveBlocked(t, attemptId, failAt) ==> r == t
    ensures failAt == StatusUpdateCall ==> r == t
    // Past the check, only `status` and `approved_at` of the attempt are written:
    // the reviewer and every other column keep their values.
    ensures !ApproveBlocked(t, attemptId, failAt) && failAt != StatusUpdateCall ==>
              r.attempts == MarkApproved(t.attempts, attemptId, now)
    // A full run (a failed duplicate lookup counts as finding no row): approved
    // whatever the earlier status, balance (old or 0) + points, one credit appended.
    ensures !ApproveBlocked(t, attemptId, failAt)
            && failAt !in {StatusUpdateCall, WalletReadCall, WalletUpdateCall, LedgerInsertCall} ==>
              (attemptId in t.attempts ==>
                 r.attempts[attemptId].status == Approved && r.attempts[attemptId].approvedAt == Some(now))
              && (userId in t.wallets ==>
                    r.wallets[userId].pointsBalance == t.wallets[userId].pointsBalance + points)
              && |r.ledger| == |t.ledger| + 1
              && r.ledger[|t.ledger|].kind == Points && r.ledger[|t.ledger|].direction == Credit
              && r.ledger[|t.ledger|].amount == points && r.ledger[|t.ledger|].profileId == userId
              && RewardsAttempt(r.ledger[|t.ledger|], attemptId)
    // Partial runs: the status is already written when the wallet update fails ...
    ensures !ApproveBlocked(t, attemptId, failAt) && failAt == WalletUpdateCall ==>
              (attemptId in t.attempts ==> r.attempts[attemptId].status == Approved)
              && r.wallets == t.wallets && r.ledger == t.ledger
    // ... and the wallet is already credited when the ledger insert fails.
    ensures !ApproveBlocked(t, attemptId, failAt) && failAt == LedgerInsertCall ==>
              (attemptId in t.attempts ==> r.attempts[attemptId].status == Approved)
              && (userId in t.wallets ==>
                    r.wallets[userId].pointsBalance == t.wallets[userId].pointsBalance + points)
              && r.ledger == t.ledger
    // A failed balance read counts as "no wallet": the balance is overwritten with `points`.
    ensures !ApproveBlocked(t, attemptId, failAt) && failAt == WalletReadCall && userId in t.wallets ==>
              r.wallets[userId].pointsBalance == points && |r.ledger| == |t.ledger| + 1
  {
    if ApproveBlocked(t, attemptId, failAt) || failAt == StatusUpdateCall then t
    else
      var t1 := t.(attempts := MarkApproved(t.attempts, attemptId, now));
      var prior := if failAt == WalletReadCall then 0 else PointsOf(t1.wallets, userId);
      if failAt == WalletUpdateCall then t1
      else
        var t2 := t1.(wallets := SetPointsBalance(t1.wallets, userId, prior + points));
        if failAt == LedgerInsertCall then t2
        else t2.(ledger := t2.ledger + [RewardEntry(entryId, userId, points, "Mission completed", attemptId, now)])
  }

  /** `update({ status: 'approved', approved_at: now }).eq('id', attemptId)`. */
  function MarkApproved(attempts: map<string, MissionAttempt>, attemptId: string, now: string)
    : (r: map<string, MissionAttempt>)
    ensures OnlyAt(attempts, r, attemptId)
    ensures attemptId in attempts ==>
              r[attemptId] == attempts[attemptId].(status := Approved, approvedAt := Some(now))
  {
    if attemptId in attempts
    then attempts[attemptId := attempts[attemptId].(status := Approved, approvedAt := Some(now))]
    else attempts
  }

  /** The one database call of `handleReject`. */
  const RejectUpdateCall := 1

  /** The tables after `handleReject(attemptId)`: only `status` is written. */
  function Reject(t: Tables, attemptId: string, failAt: nat): (r: Tables)
    ensures r.missions == t.missions && r.proofs == t.proofs
    ensures r.wallets == t.wallets && r.ledger == t.ledger
    ensures OnlyAt(t.attempts, r.attempts, attemptId)
    // Whatever the earlier status; `approved_at` and the reviewer are left as they were.
    ensures failAt != RejectUpdateCall && attemptId in t.attempts ==>
              r.attempts[attemptId] == t.attempts[attemptId].(status := Rejected)
    ensures failAt == RejectUpdateCall ==> r == t
  {
    if failAt == RejectUpdateCall || attemptId !in t.attempts then t
    else t.(attempts := t.attempts[attemptId := t.attempts[attemptId].(status := Rejected)])
  }

  /** The screen's state and the store it writes. */
  class ReviewsPage {
    const db: Db
    /** The viewer's `profiles.creator_id`. */
    const creatorId: string
    /** Ids of the attempts listed (the last fetch). */
    var attempts: set<string>
    /** The attempt whose buttons show a spinner. */
    var processingId: Option<string>

    constructor (db: Db, creatorId: string)
      ensures this.db == db && this.creatorId == creatorId
      ensures attempts == ReviewQueue(db.Snapshot(), creatorId) && processingId == None
    {
      this.db := db;
      this.creatorId := creatorId;
      attempts := ReviewQueue(db.Snapshot(), creatorId);
      processingId := None;
    }

    method HandleApprove(attemptId: string, userId: string, points: int,
                         failAt: nat, now: string, entryId: string)
      modifies this, db
      ensures db.Snapshot() == Approve(old(db.Snapshot()), attemptId, userId, points, failAt, now, entryId)
      ensures processingId == None
      ensures attempts == if ApproveCompletes(old(db.Snapshot()), attemptId, failAt)
                          then ReviewQueue(db.Snapshot(), creatorId) else old(attempts)
    {
      processingId := Some(attemptId);
      var existing := false;
      if failAt != DuplicateCheckCall {
        existing := db.SelectSingleReward(attemptId);
      }
      if existing || failAt == StatusUpdateCall {
        processingId := None;
        return;
      }
      db.attempts := MarkApproved(db.attempts, attemptId, now);
      var prior := 0;
      if failAt != WalletReadCall {
        var balance := db.SelectPointsBalance(userId);
        prior := balance.GetOr(0);
      }
      if failAt == WalletUpdateCall {
        processingId := None;
        return;
      }
      db.wallets := SetPointsBalance(db.wallets, userId, prior + points);
      if failAt == LedgerInsertCall {
        processingId := None;
        return;
      }
      db.ledger := db.ledger + [RewardEntry(entryId, userId, points, "Mission completed", attemptId, now)];
      attempts := ReviewQueue(db.Snapshot(), creatorId);
      processingId := None;
    }

    method HandleReject(attemptId: string, failAt: nat)
      modifies this, db
      ensures db.Snapshot() == Reject(old(db.Snapshot()), attemptId, failAt)
      ensures processingId == None
      ensures attempts == if failAt != RejectUpdateCall then ReviewQueue(db.Snapshot(), creatorId) else old(attempts)
    {
      processingId := Some(attemptId);
      if failAt == RejectUpdateCall {
        processingId := None;
        return;
      }
      if attemptId in db.attempts {
        db.attempts := db.attempts[attemptId := db.attempts[attemptId].(status := Rejected)];
      }
      attempts := ReviewQueue(db.Snapshot(), creatorId);
      processingId := None;
    }
  }
}
