// The fan's mission list (app/app/missions/page.tsx): the viewer's attempts are
// folded into a map from mission to status, and each mission card shows a type
// label, a status badge when the viewer has an attempt, and the base points.

module MissionsPage {
  import opened DatabaseTypes
  import opened Settlement

  /** A row of `select("mission_id, status")` on the viewer's attempts. */
  datatype AttemptRow = AttemptRow(missionId: string, status: MissionStatus)

  /** The mission ids that occur among the attempts. */
  function MissionIds(attempts: seq<AttemptRow>): (ids: set<string>)
    ensures forall k :: k in ids <==> exists i | 0 <= i < |attempts| :: attempts[i].missionId == k
  {
    if attempts == [] then {}
    else
      var init := attempts[..|attempts| - 1];
      var ids := MissionIds(init) + {attempts[|attempts| - 1].missionId};
      assert forall i | 0 <= i < |init| :: init[i] == attempts[i];
      ids
  }

  /** The status of the last attempt on the mission, in query order. */
  function LatestStatus(attempts: seq<AttemptRow>, missionId: string): Option<MissionStatus> {
    if attempts == [] then None
    else if attempts[|attempts| - 1].missionId == missionId then Some(attempts[|attempts| - 1].status)
    else LatestStatus(attempts[..|attempts| - 1], missionId)
  }

  /** `LatestStatus` names a status exactly for the missions attempted, and it
      is the status at the last position holding that mission. */
  lemma {:induction false} LatestStatusIsLastAttempt(attempts: seq<AttemptRow>, missionId: string)
    ensures LatestStatus(attempts, missionId).None? <==> missionId !in MissionIds(attempts)
    ensures LatestStatus(attempts, missionId).Some? ==>
              exists j | 0 <= j < |attempts| ::
                attempts[j].missionId == missionId
                && attempts[j].status == LatestStatus(attempts, missionId).value
                && forall i | j < i < |attempts| :: attempts[i].missionId != missionId
  {
    if attempts != [] {
      var n := |attempts| - 1;
      var init := attempts[..n];
      if attempts[n].missionId != missionId {
        LatestStatusIsLastAttempt(init, missionId);
        if LatestStatus(init, missionId).Some? {
          var j :| 0 <= j < |init| && init[j].missionId == missionId
                   && init[j].status == LatestStatus(init, missionId).value
                   && forall i | j < i < |init| :: init[i].missionId != missionId;
          assert attempts[j] == init[j];
          assert forall i | j < i < |attempts| :: attempts[i].missionId != missionId by {
            forall i | j < i < |attempts|
              ensures attempts[i].missionId != missionId
            {
              if i < n {
                assert attempts[i] == init[i];
              }
            }
          }
        }
      }
    }
  }

  /** `userAttempts?.reduce((acc, a) => { acc[a.mission_id] = a.status; return acc }, {}) || {}`:
      later attempts overwrite earlier ones on the same mission. */
  method AttemptsByMission(userAttempts: Option<seq<AttemptRow>>) returns (acc: map<string, MissionStatus>)
    ensures userAttempts.None? ==> acc == map[]
    ensures userAttempts.Some? ==>
              acc.Keys == MissionIds(userAttempts.value)
              && forall k | k in acc :: LatestStatus(userAttempts.value, k) == Some(acc[k])
  {
    acc := map[];
    if userAttempts.None? {
      return;
    }
    var attempts := userAttempts.value;
    var i := 0;
    while i < |attempts|
      invariant 0 <= i <= |attempts|
      invariant acc.Keys == MissionIds(attempts[..i])
      invariant forall k | k in acc :: LatestStatus(attempts[..i], k) == Some(acc[k])
    {
      var a := attempts[i];
      assert attempts[..i + 1][..i] == attempts[..i];
      assert attempts[..i + 1][i] == a;
      acc := acc[a.missionId := a.status];
      i := i + 1;
    }
    assert attempts[..i] == attempts;
  }

  /** Colour of the status chip; the icon follows the same choice. */
  datatype Tone = Green | Red | Yellow

  datatype StatusBadge = StatusBadge(text: string, tone: Tone)

  const CompletedText := "TAMAMLANDI"
  const RejectedText := "REDDEDİLDİ"
  const WaitingText := "BEKLEMEDE"

  /** `attemptStatus && (...)`: no chip without an attempt; approved is
      TAMAMLANDI in green, rejected REDDEDİLDİ in red, anything else
      BEKLEMEDE in yellow. */
  function BadgeFor(attemptStatus: Option<MissionStatus>): (badge: Option<StatusBadge>)
    ensures badge.None? <==> attemptStatus.None?
    ensures badge.Some? ==>
              (badge.value.text == CompletedText <==> attemptStatus.value == Approved)
              && (badge.value.text == RejectedText <==> attemptStatus.value == Rejected)
              && (badge.value.text == WaitingText <==> attemptStatus.value == Pending)
              && (badge.value.tone == Green <==> badge.value.text == CompletedText)
              && (badge.value.tone == Red <==> badge.value.text == RejectedText)
  {
    match attemptStatus
    case None => None
    case Some(Approved) => Some(StatusBadge(CompletedText, Green))
    case Some(Rejected) => Some(StatusBadge(RejectedText, Red))
    case Some(Pending) => Some(StatusBadge(WaitingText, Yellow))
  }

  const CommentLabel := "💬 YORUM"
  const QuizLabel := "❓ QUIZ"
  const ScreenshotLabel := "📸 SCREENSHOT"
  const RaidLabel := "🎯 RAID"

  /** The category chip: the three named types get their own label and every
      other type, "raid" included, shows RAID. */
  function TypeLabel(missionType: string): (shown: string)
    ensures shown == CommentLabel <==> missionType == "comment"
    ensures shown == QuizLabel <==> missionType == "quiz"
    ensures shown == ScreenshotLabel <==> missionType == "screenshot"
    ensures shown == RaidLabel <==> missionType !in {"comment", "quiz", "screenshot"}
  {
    if missionType == "comment" then CommentLabel
    else if missionType == "quiz" then QuizLabel
    else if missionType == "screenshot" then ScreenshotLabel
    else RaidLabel
  }

  /** What one mission card shows. */
  datatype MissionCard = MissionCard(
    missionId: string,
    typeLabel: string,
    badge: Option<StatusBadge>,
    title: string,
    shownPoints: int)

  /** `+{mission.points_base}`: the card leaves the bonus out. */
  function CardFor(m: Mission, attemptsByMission: map<string, MissionStatus>): (card: MissionCard)
    ensures card.missionId == m.id && card.title == m.title
    ensures card.typeLabel == TypeLabel(m.missionType)
    ensures card.badge.Some? <==> m.id in attemptsByMission
    ensures card.shownPoints == m.pointsBase
  {
    var status := if m.id in attemptsByMission then Some(attemptsByMission[m.id]) else None;
    MissionCard(m.id, TypeLabel(m.missionType), BadgeFor(status), m.title, m.pointsBase)
  }

  /** The card's points equal the reward the studio credits only when the
      mission has no bonus. */
  lemma CardPointsOmitBonus(m: Mission, attemptsByMission: map<string, MissionStatus>)
    ensures CardFor(m, attemptsByMission).shownPoints == TotalPoints(m) <==> m.pointsBonus == 0
  {
  }

  /** A mission carries a chip exactly when the viewer has an attempt on it,
      and the chip reflects the viewer's latest attempt. */
  lemma CardBadgeFollowsLatestAttempt(m: Mission, attempts: seq<AttemptRow>, byMission: map<string, MissionStatus>)
    requires byMission.Keys == MissionIds(attempts)
    requires forall k | k in byMission :: LatestStatus(attempts, k) == Some(byMission[k])
    ensures CardFor(m, byMission).badge == BadgeFor(LatestStatus(attempts, m.id))
  {
    LatestStatusIsLastAttempt(attempts, m.id);
  }
}
