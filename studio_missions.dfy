// The creator's mission list (app/studio/missions/page.tsx): each card shows the
// reward total, a type badge and one of three status chips, and offers an
// activate/deactivate toggle that writes the mission row.

module StudioMissions {
  import opened DatabaseTypes
  import opened Settlement
  import MissionsPage

  /** The status chip of a card. */
  datatype MissionState = Active | Expired | Passive

  function StateText(s: MissionState): string {
    match s
    case Active => "Aktif"
    case Expired => "Süresi Doldu"
    case Passive => "Pasif"
  }

  /** `new Date(mission.ends_at) < new Date()`, with the end date read as
      milliseconds. `None` stands for a text that does not parse: an invalid
      date compares false, so such a mission never expires. A null `ends_at`
      is not `None`: `new Date(null)` is the epoch, so it reads as `Some(0)`
      and the mission shows as expired. */
  predicate IsExpired(endsAt: Option<int>, now: int) {
    endsAt.Some? && endsAt.value < now
  }

  /** `is_active && !isExpired ? Aktif : isExpired ? Süresi Doldu : Pasif`. */
  function Classify(isActive: bool, isExpired: bool): (s: MissionState)
    ensures s == Active <==> isActive && !isExpired
    ensures s == Expired <==> isExpired
    ensures s == Passive <==> !isActive && !isExpired
  {
    if isActive && !isExpired then Active
    else if isExpired then Expired
    else Passive
  }

  /** The three chips have distinct texts, so a card shows exactly one. */
  lemma StateTextsDistinct(a: MissionState, b: MissionState)
    ensures StateText(a) == StateText(b) <==> a == b
  {
    if a != b {
      assert StateText(a)[0] != StateText(b)[0] || |StateText(a)| != |StateText(b)|;
    }
  }

  /** `disabled={isExpired}`. */
  predicate ToggleEnabled(isExpired: bool) {
    !isExpired
  }

  /** The toggle can be pressed exactly on cards not marked expired, active or
      passive alike. */
  lemma ToggleEnabledUnlessExpired(isActive: bool, isExpired: bool)
    ensures ToggleEnabled(isExpired) <==> Classify(isActive, isExpired) != Expired
    ensures ToggleEnabled(isExpired) ==> (Classify(isActive, isExpired) == Active <==> isActive)
  {
  }

  /** What one card shows. */
  datatype MissionCard = MissionCard(
    title: string,
    typeBadge: string,
    totalPoints: int,
    state: MissionState,
    toggleEnabled: bool,
    toggleText: string)

  function CardFor(m: Mission, endsAt: Option<int>, now: int): (card: MissionCard)
    ensures card.totalPoints == TotalPoints(m) && card.typeBadge == TypeBadge(m.missionType)
    ensures card.state == Classify(m.isActive, IsExpired(endsAt, now))
    ensures card.toggleEnabled <==> card.state != Expired
    ensures card.toggleText == (if m.isActive then "Devre Dışı Bırak" else "Aktif Et")
  {
    var expired := IsExpired(endsAt, now);
    MissionCard(m.title, TypeBadge(m.missionType), m.pointsBase + m.pointsBonus,
                Classify(m.isActive, expired), ToggleEnabled(expired),
                if m.isActive then "Devre Dışı Bırak" else "Aktif Et")
  }

  /** An entry of the `types` record. */
  datatype TypeInfo = TypeInfo(badgeLabel: string, emoji: string)

  function KnownType(missionType: string): Option<TypeInfo> {
    if missionType == "comment" then Some(TypeInfo("Yorum", "💬"))
    else if missionType == "quiz" then Some(TypeInfo("Quiz", "❓"))
    else if missionType == "screenshot" then Some(TypeInfo("Screenshot", "📸"))
    else if missionType == "raid" then Some(TypeInfo("Raid", "🎯"))
    else None
  }

  const CommentBadge := "💬 Yorum"

  /** `types[type] || types.comment`, shown as emoji, a space and the label:
      an unknown type takes the comment badge. */
  function TypeBadge(missionType: string): (badge: string)
    ensures KnownType(missionType).Some? ==>
              badge == KnownType(missionType).value.emoji + " " + KnownType(missionType).value.badgeLabel
    ensures KnownType(missionType).None? ==> badge == CommentBadge
  {
    var info := KnownType(missionType).GetOr(KnownType("comment").value);
    info.emoji + " " + info.badgeLabel
  }

  /** The four declared types get four different badges. */
  lemma KnownBadgesDistinct(t1: string, t2: string)
    requires KnownType(t1).Some? && KnownType(t2).Some?
    ensures TypeBadge(t1) == TypeBadge(t2) <==> t1 == t2
  {
    if t1 != t2 {
      var b1, b2 := TypeBadge(t1), TypeBadge(t2);
      assert b1[2] != b2[2] || b1[0] != b2[0];
    }
  }

  /** The fan's list and the creator's list disagree on a type outside the four:
      the fan sees it as RAID, the creator as a comment mission. */
  lemma UnknownTypeShownDifferently(missionType: string)
    requires KnownType(missionType).None?
    ensures MissionsPage.TypeLabel(missionType) == MissionsPage.RaidLabel
    ensures TypeBadge(missionType) == CommentBadge
  {
  }

  /** `update({ is_active: value }).eq('id', missionId)`: no row matches a
      missing id, and nothing else changes. */
  function SetActive(missions: map<string, Mission>, missionId: string, value: bool): (r: map<string, Mission>)
    ensures r.Keys == missions.Keys
    ensures forall k | k in missions && k != missionId :: r[k] == missions[k]
    ensures missionId in missions ==> r[missionId] == missions[missionId].(isActive := value)
  {
    if missionId in missions then missions[missionId := missions[missionId].(isActive := value)]
    else missions
  }

  /** The written value is the negation of what the card last showed, not of
      the stored row: on a card that matches the row the flag flips, while a
      stale card writes the value already stored and changes nothing. */
  lemma ToggleUsesShownValue(missions: map<string, Mission>, missionId: string, shown: bool)
    requires missionId in missions
    ensures var r := SetActive(missions, missionId, !shown);
            (missions[missionId].isActive == shown ==> r[missionId].isActive == !missions[missionId].isActive)
            && (missions[missionId].isActive != shown ==> r == missions)
  {
    var r := SetActive(missions, missionId, !shown);
    if missions[missionId].isActive != shown {
      assert r[missionId] == missions[missionId];
      assert forall k | k in r :: r[k] == missions[k];
    }
  }

  const DeactivatedToast := "Görev devre dışı bırakıldı"
  const ActivatedToast := "Görev aktif edildi"
  const FailedToast := "İşlem başarısız oldu"

  /** The screen's state: the listed missions and the last toast. */
  class StudioMissionsPage {
    const db: Db
    var missions: seq<Mission>
    var toast: Option<string>

    constructor (db: Db)
      ensures this.db == db && missions == [] && toast.None?
    {
      this.db := db;
      missions := [];
      toast := None;
    }

    /** `toggleActive(missionId, currentStatus)`; the update call fails when
        `updateFails`. The refetch it starts without awaiting is not part of
        this call, so the listed missions stay as they were. */
    method ToggleActive(missionId: string, currentStatus: bool, updateFails: bool)
      modifies this, db
      ensures db.attempts == old(db.attempts) && db.proofs == old(db.proofs)
      ensures db.wallets == old(db.wallets) && db.ledger == old(db.ledger)
      ensures missions == old(missions)
      ensures updateFails ==> db.missions == old(db.missions) && toast == Some(FailedToast)
      ensures !updateFails ==>
                db.missions == SetActive(old(db.missions), missionId, !currentStatus)
                && toast == Some(if currentStatus then DeactivatedToast else ActivatedToast)
    {
      if updateFails {
        toast := Some(FailedToast);
        return;
      }
      db.missions := SetActive(db.missions, missionId, !currentStatus);
      toast := Some(if currentStatus then DeactivatedToast else ActivatedToast);
    }
  }
}
