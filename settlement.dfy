// The tables the two studio review screens write, held in memory, and the
// row-level helpers both screens share.

module Settlement {
  import opened DatabaseTypes

  /** The `ref_type` both screens write on a mission reward. */
  const MissionAttemptRef := "mission_attempt"

  /** The rows of the five tables the settlement code touches, keyed by `id`
      (wallets by `profile_id`); the ledger in insertion order. */
  datatype Tables = Tables(
    missions: map<string, Mission>,
    attempts: map<string, MissionAttempt>,
    proofs: map<string, Proof>,
    wallets: map<string, Wallet>,
    ledger: seq<LedgerEntry>)

  /** Reward shown and credited for a mission: `points_base + (points_bonus || 0)`.
      Both columns are declared non-null numbers, so `|| 0` leaves the bonus as is. */
  function TotalPoints(m: Mission): int {
    m.pointsBase + m.pointsBonus
  }

  /** The entry carries the reference `("mission_attempt", attemptId)`. */
  predicate RewardsAttempt(e: LedgerEntry, attemptId: string) {
    e.refType == Some(MissionAttemptRef) && e.refId == Some(attemptId)
  }

  /** Number of ledger entries referring to the attempt. */
  function RewardCount(ledger: seq<LedgerEntry>, attemptId: string): nat {
    if ledger == [] then 0
    else RewardCount(ledger[..|ledger| - 1], attemptId)
         + (if RewardsAttempt(ledger[|ledger| - 1], attemptId) then 1 else 0)
  }

  lemma {:induction false} RewardCountAppend(ledger: seq<LedgerEntry>, e: LedgerEntry, attemptId: string)
    ensures RewardCount(ledger + [e], attemptId)
            == RewardCount(ledger, attemptId) + (if RewardsAttempt(e, attemptId) then 1 else 0)
  {
    assert (ledger + [e])[..|ledger|] == ledger;
  }

  /** Signed value of an entry on the points balance of `profileId`. */
  function PointsDelta(e: LedgerEntry, profileId: string): int {
    if e.profileId != profileId || e.kind != Points then 0
    else if e.direction == Credit then e.amount
    else -e.amount
  }

  /** Sum of the signed points entries of one profile. */
  function PointsSum(ledger: seq<LedgerEntry>, profileId: string): int {
    if ledger == [] then 0
    else PointsSum(ledger[..|ledger| - 1], profileId) + PointsDelta(ledger[|ledger| - 1], profileId)
  }

  lemma {:induction false} PointsSumAppend(ledger: seq<LedgerEntry>, e: LedgerEntry, profileId: string)
    ensures PointsSum(ledger + [e], profileId) == PointsSum(ledger, profileId) + PointsDelta(e, profileId)
  {
    assert (ledger + [e])[..|ledger|] == ledger;
  }

  /** `m2` has the keys of `m1` and differs from it at most at key `k`. */
  ghost predicate OnlyAt<K, V>(m1: map<K, V>, m2: map<K, V>, k: K) {
    m1.Keys == m2.Keys && forall x | x in m1 && x != k :: m2[x] == m1[x]
  }

  /** `wallet?.points_balance || 0` after `.single()` on `profile_id`. */
  function PointsOf(wallets: map<string, Wallet>, profileId: string): int {
    if profileId in wallets then wallets[profileId].pointsBalance else 0
  }

  /** `update({ points_balance }).eq('profile_id', p)`: a missing wallet row
      matches nothing and no row is created. */
  function SetPointsBalance(wallets: map<string, Wallet>, profileId: string, balance: int): (r: map<string, Wallet>)
    ensures OnlyAt(wallets, r, profileId)
    ensures profileId in wallets ==> r[profileId] == wallets[profileId].(pointsBalance := balance)
  {
    if profileId in wallets then wallets[profileId := wallets[profileId].(pointsBalance := balance)]
    else wallets
  }

  /** A points credit for a completed mission attempt. */
  function RewardEntry(entryId: string, profileId: string, amount: int, reason: string,
                       attemptId: string, now: string): (e: LedgerEntry)
    ensures RewardsAttempt(e, attemptId)
    ensures PointsDelta(e, profileId) == amount
  {
    LedgerEntry(entryId, profileId, Points, Credit, amount, Some(reason),
                Some(MissionAttemptRef), Some(attemptId), now)
  }

  /** The pending attempts of one creator's missions (the review screen's list;
      its order by `submitted_at` is not modelled). */
  function ReviewQueue(t: Tables, creatorId: string): set<string> {
    set a | a in t.attempts && t.attempts[a].status == Pending
            && t.attempts[a].missionId in t.missions
            && t.missions[t.attempts[a].missionId].creatorId == creatorId
  }

  /** The pending proofs of one creator's missions (the proofs screen's list). */
  function ProofQueue(t: Tables, creatorId: string): set<string> {
    set p | p in t.proofs && t.proofs[p].reviewStatus == Pending
            && t.proofs[p].attemptId in t.attempts
            && t.attempts[t.proofs[p].attemptId].missionId in t.missions
            && t.missions[t.attempts[t.proofs[p].attemptId].missionId].creatorId == creatorId
  }

  /** The hosted database as one in-memory store. */
  class Db {
    var missions: map<string, Mission>
    var attempts: map<string, MissionAttempt>
    var proofs: map<string, Proof>
    var wallets: map<string, Wallet>
    var ledger: seq<LedgerEntry>

    function Snapshot(): Tables
      reads this
    {
      Tables(missions, attempts, proofs, wallets, ledger)
    }

    constructor (t: Tables)
      ensures Snapshot() == t
    {
      missions, attempts, proofs, wallets, ledger := t.missions, t.attempts, t.proofs, t.wallets, t.ledger;
    }

    /** `.from('ledger_entries').select('id').eq('ref_type', 'mission_attempt')
        .eq('ref_id', attemptId).single()`: a row comes back only when exactly
        one entry matches; none or several give `data: null`. */
    method SelectSingleReward(attemptId: string) returns (found: bool)
      ensures found <==> RewardCount(ledger, attemptId) == 1
    {
      var n := 0;
      var i := 0;
      while i < |ledger|
        invariant 0 <= i <= |ledger|
        invariant n == RewardCount(ledger[..i], attemptId)
      {
        assert ledger[..i + 1][..i] == ledger[..i];
        if RewardsAttempt(ledger[i], attemptId) {
          n := n + 1;
        }
        i := i + 1;
      }
      assert ledger[..i] == ledger;
      found := n == 1;
    }

    /** `.from('wallets').select('points_balance').eq('profile_id', p).single()`. */
    method SelectPointsBalance(profileId: string) returns (balance: Option<int>)
      ensures balance.Some? <==> profileId in wallets
      ensures balance.Some? ==> balance.value == wallets[profileId].pointsBalance
    {
      if profileId in wallets {
        balance := Some(wallets[profileId].pointsBalance);
      } else {
        balance := None;
      }
    }
  }
}
