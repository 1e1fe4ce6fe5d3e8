// The daily wheel (app/app/wheel/page.tsx): a spin turns the wheel by five full
// turns plus a random number of segments, and when the animation ends the
// reward opposite that offset is saved as a `wheel_spins` row.

module Wheel {
  import opened DatabaseTypes
  import WalletPage

  /** One segment of the wheel. */
  datatype WheelReward = WheelReward(kind: LedgerKind, value: int, rewardText: string)

  /** `REWARDS`, in drawing order (the colours are left out). */
  const Rewards: seq<WheelReward> := [
    WheelReward(Points, 10, "+10 Puan"),
    WheelReward(Points, 25, "+25 Puan"),
    WheelReward(Coins, 5, "+5 Coin"),
    WheelReward(Points, 50, "+50 Puan"),
    WheelReward(Coins, 10, "+10 Coin"),
    WheelReward(Points, 15, "+15 Puan")
  ]

  /** `REWARDS.length`. */
  const NumRewards := 6
  /** `360 / numRewards`, exact since six divides a full turn. */
  const SegmentAngle := 60
  /** `360 * 5`: the five full turns of every spin. */
  const FullTurns := 1800

  /** The text a segment announces: a plus sign, the value and the unit of its kind. */
  function AnnouncedText(kind: LedgerKind, value: nat): string {
    "+" + WalletPage.NatText(value) + (if kind == Points then " Puan" else " Coin")
  }

  /** Every segment has a positive value and a text naming that value and kind. */
  lemma RewardsWellFormed()
    ensures |Rewards| == NumRewards && NumRewards * SegmentAngle == 360
    ensures forall i | 0 <= i < |Rewards| ::
              Rewards[i].value > 0 && Rewards[i].rewardText == AnnouncedText(Rewards[i].kind, Rewards[i].value)
  {
    assert WalletPage.NatText(5) == "5";
    assert WalletPage.NatText(10) == "10";
    assert WalletPage.NatText(15) == "15";
    assert WalletPage.NatText(25) == "25";
    assert WalletPage.NatText(50) == "50";
  }

  /** `(numRewards - randomIndex) % numRewards`. */
  function RewardIndex(r: int): (k: int)
    requires 0 <= r < NumRewards
    ensures 0 <= k < NumRewards
    ensures (k + r) % NumRewards == 0
  {
    (NumRewards - r) % NumRewards
  }

  /** The index map pairs each offset with one reward: it is its own inverse on
      the six offsets, so it is a bijection, and offset 0 gives the first reward. */
  lemma RewardIndexIsInvolution(r: int)
    requires 0 <= r < NumRewards
    ensures RewardIndex(RewardIndex(r)) == r
    ensures RewardIndex(r) == 0 <==> r == 0
  {
  }

  lemma RewardIndexInjective(r1: int, r2: int)
    requires 0 <= r1 < NumRewards && 0 <= r2 < NumRewards
    ensures RewardIndex(r1) == RewardIndex(r2) <==> r1 == r2
  {
    RewardIndexIsInvolution(r1);
    RewardIndexIsInvolution(r2);
  }

  /** `360 * 5 + randomIndex * segmentAngle`. */
  function AdditionalRotation(r: int): int {
    FullTurns + r * SegmentAngle
  }

  /** The wheel comes to rest with the paid reward's segment turned back onto the
      first segment's starting angle exactly when the wheel started from a whole
      number of turns: the reward index ignores the rotation left by earlier spins. */
  lemma RewardMatchesRestingAngle(rotation: int, r: int)
    requires 0 <= r < NumRewards
    ensures (rotation + AdditionalRotation(r) + RewardIndex(r) * SegmentAngle) % 360 == 0
            <==> rotation % 360 == 0
  {
    var k := RewardIndex(r);
    assert (k + r) % NumRewards == 0;
    assert k + r == 0 || k + r == 6;
    assert AdditionalRotation(r) + k * SegmentAngle == 1800 + (k + r) * 60;
  }

  /** A row of `wheel_spins`. */
  datatype SpinRecord = SpinRecord(userId: string, kind: LedgerKind, value: int)

  const LoginPath := "/auth/login"
  const SaveFailedToast := "Ödül kaydedilirken bir hata oluştu."

  /** `Tebrikler! ${reward.label} kazandın! 🥳`. */
  function WinToast(reward: WheelReward): string {
    "Tebrikler! " + reward.rewardText + " kazandın! 🥳"
  }

  /** The screen's state, with the `wheel_spins` table it writes. */
  class WheelPage {
    var spinning: bool
    var rotation: int
    var canSpin: bool
    var loading: bool
    var navigation: Option<string>
    var toast: Option<string>
    var spins: seq<SpinRecord>

    constructor (spins: seq<SpinRecord>)
      ensures !spinning && rotation == 0 && !canSpin && loading
      ensures navigation.None? && toast.None? && this.spins == spins
    {
      spinning, rotation, canSpin, loading := false, 0, false, true;
      navigation, toast := None, None;
      this.spins := spins;
    }

    /** `checkCooldown`, given the signed-in user and the answer of the
        `can_spin_today` call (`None` when it returns no data, which is falsy).
        A visitor who is not signed in is sent to the login page and the
        spinner is never turned off. */
    method CheckCooldown(user: Option<string>, canSpinToday: Option<bool>)
      modifies this
      ensures spinning == old(spinning) && rotation == old(rotation)
      ensures toast == old(toast) && spins == old(spins)
      ensures user.None? ==> loading && navigation == Some(LoginPath) && canSpin == old(canSpin)
      ensures user.Some? ==> !loading && navigation == old(navigation) && canSpin == canSpinToday.GetOr(false)
    {
      loading := true;
      if user.None? {
        navigation := Some(LoginPath);
        return;
      }
      canSpin := canSpinToday.GetOr(false);
      loading := false;
    }

    /** The synchronous part of `handleSpin`, with `randomIndex` as `r`. It
        returns the offset the timer will settle, or `None` when a spin is
        already running or none is allowed. */
    method StartSpin(r: int) returns (scheduled: Option<int>)
      requires 0 <= r < NumRewards
      modifies this
      ensures canSpin == old(canSpin) && loading == old(loading) && navigation == old(navigation)
      ensures toast == old(toast) && spins == old(spins)
      ensures old(spinning) || !old(canSpin) ==>
                scheduled.None? && spinning == old(spinning) && rotation == old(rotation)
      ensures !old(spinning) && old(canSpin) ==>
                scheduled == Some(r) && spinning && rotation == old(rotation) + AdditionalRotation(r)
    {
      if spinning || !canSpin {
        return None;
      }
      spinning := true;
      var additional := FullTurns + r * SegmentAngle;
      rotation := rotation + additional;
      scheduled := Some(r);
    }

    /** The timer callback for offset `r`: the spinner stops whatever follows;
        with a signed-in user the reward is saved, and only a saved spin uses up
        today's turn. */
    method FinishSpin(r: int, user: Option<string>, saveFails: bool)
      requires 0 <= r < NumRewards
      modifies this
      ensures !spinning && rotation == old(rotation) && loading == old(loading)
      ensures navigation == old(navigation)
      ensures user.None? ==> canSpin == old(canSpin) && toast == old(toast) && spins == old(spins)
      ensures user.Some? && saveFails ==>
                canSpin == old(canSpin) && toast == Some(SaveFailedToast) && spins == old(spins)
      ensures user.Some? && !saveFails ==>
                var reward := Rewards[RewardIndex(r)];
                !canSpin && toast == Some(WinToast(reward))
                && spins == old(spins) + [SpinRecord(user.value, reward.kind, reward.value)]
    {
      spinning := false;
      var reward := Rewards[(NumRewards - r) % NumRewards];
      if user.None? {
        return;
      }
      if saveFails {
        toast := Some(SaveFailedToast);
        return;
      }
      spins := spins + [SpinRecord(user.value, reward.kind, reward.value)];
      toast := Some(WinToast(reward));
      canSpin := false;
    }
  }

  /** A spin started and settled with a saved result adds one record whose
      value is positive, and no further spin can start. */
  method SpinOnce(page: WheelPage, r: int, user: string) returns (started: bool)
    requires 0 <= r < NumRewards
    modifies page
    ensures started <==> !old(page.spinning) && old(page.canSpin)
    ensures started ==> |page.spins| == |old(page.spins)| + 1 && page.spins[|page.spins| - 1].value > 0
                        && !page.canSpin && !page.spinning
    ensures !started ==> page.spins == old(page.spins)
  {
    var scheduled := page.StartSpin(r);
    started := scheduled.Some?;
    if started {
      page.FinishSpin(r, Some(user), false);
      RewardsWellFormed();
    }
  }
}
