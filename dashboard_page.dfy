// The fan's home screen (app/app/dashboard/page.tsx): the greeting, the XP bar,
// the two balances and the success score, derived from three lookups that each
// fill one piece of state.

module DashboardPage {
  import opened DatabaseTypes
  import WalletPage

  /** XP per completed mission (`completedMissions * 150`). */
  const XpPerMission := 150
  /** Score points per completed mission, and the cap (`Math.min(100, n * 10)`). */
  const ScorePerMission := 10
  const ScoreCap := 100
  const FallbackName := "Yolcu"

  /** The XP handed to the level bar. */
  function Xp(completed: nat): nat {
    completed * XpPerMission
  }

  /** The success score, in percent. */
  function SuccessScore(completed: nat): (score: nat)
    ensures score <= ScoreCap
    ensures score == ScoreCap <==> completed >= ScoreCap / ScorePerMission
    ensures score < ScoreCap ==> score == completed * ScorePerMission
  {
    if completed * ScorePerMission < ScoreCap then completed * ScorePerMission else ScoreCap
  }

  /** The score grows with the number of completed missions, and is the XP
      scaled down by fifteen until it reaches the cap. */
  lemma ScoreTracksXp(a: nat, b: nat)
    requires a <= b
    ensures SuccessScore(a) <= SuccessScore(b)
    ensures SuccessScore(a) == (if Xp(a) / 15 < ScoreCap then Xp(a) / 15 else ScoreCap)
  {
    assert Xp(a) == (a * ScorePerMission) * 15;
    assert Xp(a) / 15 == a * ScorePerMission;
  }

  /** `email.split('@')[0]`: the text before the first '@', or the whole address. */
  function EmailLocalPart(email: string): (local: string)
    ensures local <= email
    ensures '@' !in local
    ensures |local| < |email| ==> email[|local|] == '@'
  {
    if email == [] || email[0] == '@' then []
    else [email[0]] + EmailLocalPart(email[1..])
  }

  /** `profile?.display_name || user?.email?.split('@')[0] || "Yolcu"`: an
      empty text counts as missing at each step. */
  function GreetingName(displayName: Option<string>, email: Option<string>): (name: string)
    ensures name != []
    ensures displayName.Some? && displayName.value != [] ==> name == displayName.value
    ensures (displayName.None? || displayName.value == []) && email.Some? && EmailLocalPart(email.value) != []
            ==> name == EmailLocalPart(email.value)
    ensures (displayName.None? || displayName.value == []) && (email.None? || EmailLocalPart(email.value) == [])
            ==> name == FallbackName
  {
    if displayName.Some? && displayName.value != [] then displayName.value
    else if email.Some? && EmailLocalPart(email.value) != [] then EmailLocalPart(email.value)
    else FallbackName
  }

  /** The three state pieces the cards read. */
  datatype Shown = Shown(xp: nat, pointsBalance: int, coinsBalance: int, score: nat)

  function ShownStats(wallet: Option<Wallet>, completed: nat): (s: Shown)
    ensures s.xp == Xp(completed) && s.score == SuccessScore(completed)
    ensures wallet.None? ==> s.pointsBalance == 0 && s.coinsBalance == 0
    ensures wallet.Some? ==> s.pointsBalance == wallet.value.pointsBalance && s.coinsBalance == wallet.value.coinsBalance
  {
    var balances := WalletPage.ShownBalances(wallet);
    Shown(Xp(completed), balances.0, balances.1, SuccessScore(completed))
  }

  /** The home screen and the wallet screen show the same two balances for
      the same wallet row. */
  lemma BalancesAgreeWithWalletPage(wallet: Option<Wallet>, completed: nat)
    ensures var s := ShownStats(wallet, completed);
            (s.pointsBalance, s.coinsBalance) == WalletPage.ShownBalances(wallet)
  {
  }

  /** The screen's state. */
  class DashboardPage {
    var user: Option<string>
    var profile: Option<Profile>
    var wallet: Option<Wallet>
    var completedMissions: nat

    constructor ()
      ensures user.None? && profile.None? && wallet.None? && completedMissions == 0
    {
      user, profile, wallet, completedMissions := None, None, None, 0;
    }

    /** `fetchProfile`: `row` is what `.single()` returned (`None` for no row,
        several rows or an error); the state is replaced only by a row. */
    method FetchProfile(row: Option<Profile>)
      modifies this
      ensures row.Some? ==> profile == row
      ensures row.None? ==> profile == old(profile)
      ensures user == old(user) && wallet == old(wallet) && completedMissions == old(completedMissions)
    {
      if row.Some? {
        profile := row;
      }
    }

    /** `fetchWallet`, in the same way. */
    method FetchWallet(row: Option<Wallet>)
      modifies this
      ensures row.Some? ==> wallet == row
      ensures row.None? ==> wallet == old(wallet)
      ensures user == old(user) && profile == old(profile) && completedMissions == old(completedMissions)
    {
      if row.Some? {
        wallet := row;
      }
    }

    /** `fetchStats`: `setCompletedMissions(count || 0)`; unlike the two above,
        a missing count does overwrite the state. */
    method FetchStats(count: Option<nat>)
      modifies this
      ensures completedMissions == count.GetOr(0)
      ensures user == old(user) && profile == old(profile) && wallet == old(wallet)
    {
      completedMissions := count.GetOr(0);
    }

    /** `getData`: only a signed-in user triggers the three lookups. */
    method Load(authUser: Option<string>, profileRow: Option<Profile>, walletRow: Option<Wallet>,
                count: Option<nat>)
      modifies this
      ensures authUser.None? ==>
                user == old(user) && profile == old(profile) && wallet == old(wallet)
                && completedMissions == old(completedMissions)
      ensures authUser.Some? ==>
                user == authUser
                && profile == (if profileRow.Some? then profileRow else old(profile))
                && wallet == (if walletRow.Some? then walletRow else old(wallet))
                && completedMissions == count.GetOr(0)
    {
      if authUser.Some? {
        user := authUser;
        FetchProfile(profileRow);
        FetchWallet(walletRow);
        FetchStats(count);
      }
    }
  }
}
