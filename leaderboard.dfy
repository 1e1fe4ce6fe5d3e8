// The fan leaderboard (app/app/leaderboard/page.tsx): the query result is
// numbered in order, split into a podium of three and the rest, and the viewer's
// own rank is looked up by id.

module Leaderboard {
  import opened DatabaseTypes

  /** How many places the podium shows: `slice(0, 3)`. */
  const PodiumSize := 3

  /** One row of the leaderboard query: a profile and the `points_balance` of
      its embedded `wallets` rows (`None` when the embed is null). */
  datatype LeaderRow = LeaderRow(
    id: string,
    displayName: Option<string>,
    avatarUrl: Option<string>,
    walletPoints: Option<seq<int>>)

  datatype RankedUser = RankedUser(row: LeaderRow, rank: int, points: int)

  /** `user.wallets?.[0]?.points_balance || 0`. The balance is a non-null
      number, so `|| 0` only replaces a missing wallet. */
  function FirstWalletPoints(row: LeaderRow): (points: int)
    ensures row.walletPoints.Some? && |row.walletPoints.value| > 0 ==> points == row.walletPoints.value[0]
    ensures row.walletPoints.None? || row.walletPoints.value == [] ==> points == 0
  {
    match row.walletPoints
    case None => 0
    case Some(balances) => if balances == [] then 0 else balances[0]
  }

  /** `leaderboard?.map((user, index) => ({ ...user, rank: index + 1, points })) || []`. */
  function RankedUsers(leaderboard: Option<seq<LeaderRow>>): (ranked: seq<RankedUser>)
    ensures leaderboard.None? ==> ranked == []
    ensures leaderboard.Some? ==>
              |ranked| == |leaderboard.value|
              && forall i | 0 <= i < |ranked| ::
                   ranked[i].row == leaderboard.value[i]
                   && ranked[i].rank == i + 1
                   && ranked[i].points == FirstWalletPoints(leaderboard.value[i])
  {
    match leaderboard
    case None => []
    case Some(rows) => seq(|rows|, i requires 0 <= i < |rows| => RankedUser(rows[i], i + 1, FirstWalletPoints(rows[i])))
  }

  /** `rankedUsers.slice(0, 3)`. */
  function TopThree(ranked: seq<RankedUser>): seq<RankedUser> {
    if |ranked| <= PodiumSize then ranked else ranked[..PodiumSize]
  }

  /** `rankedUsers.slice(3)`. */
  function Others(ranked: seq<RankedUser>): seq<RankedUser> {
    if |ranked| <= PodiumSize then [] else ranked[PodiumSize..]
  }

  /** The podium and the list below it split the ranking without loss: the
      podium is its first three entries, the list the rest, each with rank
      above three. */
  lemma PodiumAndOthersSplitRanking(leaderboard: Option<seq<LeaderRow>>)
    ensures var ranked := RankedUsers(leaderboard);
            TopThree(ranked) + Others(ranked) == ranked
            && |TopThree(ranked)| <= PodiumSize
            && (|ranked| >= PodiumSize ==> |TopThree(ranked)| == PodiumSize)
            && (forall u | u in TopThree(ranked) :: 1 <= u.rank <= PodiumSize)
            && (forall u | u in Others(ranked) :: u.rank > PodiumSize)
  {
    var ranked := RankedUsers(leaderboard);
    forall u | u in TopThree(ranked)
      ensures 1 <= u.rank <= PodiumSize
    {
      var i :| 0 <= i < |TopThree(ranked)| && TopThree(ranked)[i] == u;
      assert ranked[i] == u;
    }
    forall u | u in Others(ranked)
      ensures u.rank > PodiumSize
    {
      var i :| 0 <= i < |Others(ranked)| && Others(ranked)[i] == u;
      assert ranked[i + PodiumSize] == u;
    }
  }

  /** `findIndex(u => u.id === userId)`: the first position holding the id, or -1. */
  function FindIndex(ranked: seq<RankedUser>, userId: string): (index: int)
    ensures -1 <= index < |ranked|
    ensures index == -1 <==> forall i | 0 <= i < |ranked| :: ranked[i].row.id != userId
    ensures index >= 0 ==> ranked[index].row.id == userId
                           && forall i | 0 <= i < index :: ranked[i].row.id != userId
  {
    if ranked == [] then -1
    else if ranked[0].row.id == userId then 0
    else
      var rest := FindIndex(ranked[1..], userId);
      assert forall i | 1 <= i < |ranked| :: ranked[i] == ranked[1..][i - 1];
      if rest == -1 then -1 else rest + 1
  }

  /** `findIndex(...) + 1`: the viewer's one-based place, 0 when absent. */
  function CurrentUserRank(ranked: seq<RankedUser>, userId: string): int {
    FindIndex(ranked, userId) + 1
  }

  /** The viewer's rank is 0 exactly when they are not listed; otherwise it is
      the rank of the first entry holding their id. */
  lemma CurrentUserRankLocatesViewer(leaderboard: Option<seq<LeaderRow>>, userId: string)
    ensures var ranked := RankedUsers(leaderboard);
            var rank := CurrentUserRank(ranked, userId);
            0 <= rank <= |ranked|
            && (rank == 0 <==> forall u | u in ranked :: u.row.id != userId)
            && (rank > 0 ==> ranked[rank - 1].row.id == userId && ranked[rank - 1].rank == rank)
  {
    var ranked := RankedUsers(leaderboard);
    if CurrentUserRank(ranked, userId) == 0 {
      forall u | u in ranked
        ensures u.row.id != userId
      {
        var i :| 0 <= i < |ranked| && ranked[i] == u;
      }
    }
  }

  /** The rank bar shows only when `currentUserRank > 3`; the entry it reads,
      `rankedUsers[currentUserRank - 1]`, then exists, is the viewer's, and is
      the one the list below the podium shows at that rank. */
  lemma RankBarInBounds(leaderboard: Option<seq<LeaderRow>>, userId: string)
    ensures var ranked := RankedUsers(leaderboard);
            var rank := CurrentUserRank(ranked, userId);
            rank > PodiumSize ==>
              0 <= rank - 1 < |ranked|
              && ranked[rank - 1].row.id == userId
              && ranked[rank - 1] == Others(ranked)[rank - 1 - PodiumSize]
  {
    CurrentUserRankLocatesViewer(leaderboard, userId);
  }
}
