// The row types of the hosted database (lib/types/database.ts) and the text
// encodings the pages compare against.

module DatabaseTypes {

  datatype Option<+T> = None | Some(value: T) {
    function GetOr(default: T): T {
      match this
      case Some(v) => v
      case None => default
    }
  }

  /** A profile's role. `Unrecognized` stands for any stored value other than
      the three the type declares: the pages compare the raw column text, so
      such a value matches none of their tests. */
  datatype UserRole = Fan | Creator | Admin | Unrecognized

  /** Shared by an attempt's `status` and a proof's `review_status`. */
  datatype MissionStatus = Pending | Approved | Rejected

  datatype LedgerKind = Points | Coins

  datatype LedgerDirection = Credit | Debit

  datatype ProofType = ScreenshotProof | TextProof

  datatype Profile = Profile(
    id: string,
    role: UserRole,
    displayName: Option<string>,
    avatarUrl: Option<string>,
    creatorId: Option<string>)

  /** `missionType` is the raw column text: the pages test it against the four
      declared names and give every other value a fallback label. */
  datatype Mission = Mission(
    id: string,
    creatorId: string,
    missionType: string,
    title: string,
    pointsBase: int,
    pointsBonus: int,
    isActive: bool)

  datatype MissionAttempt = MissionAttempt(
    id: string,
    missionId: string,
    userProfileId: string,
    status: MissionStatus,
    submittedAt: string,
    approvedAt: Option<string>,
    reviewerProfileId: Option<string>)

  datatype Proof = Proof(
    id: string,
    attemptId: string,
    userProfileId: string,
    filePath: Option<string>,
    proofType: ProofType,
    aiStatus: Option<string>,
    reviewStatus: MissionStatus,
    reviewerProfileId: Option<string>,
    createdAt: string)

  /** One row per `profileId`, holding both balances. */
  datatype Wallet = Wallet(
    profileId: string,
    coinsBalance: int,
    pointsBalance: int,
    updatedAt: string)

  datatype LedgerEntry = LedgerEntry(
    id: string,
    profileId: string,
    kind: LedgerKind,
    direction: LedgerDirection,
    amount: int,
    reason: Option<string>,
    refType: Option<string>,
    refId: Option<string>,
    createdAt: string)

  // Column text of the enumerations.

  function StatusText(s: MissionStatus): string {
    match s
    case Pending => "pending"
    case Approved => "approved"
    case Rejected => "rejected"
  }

  /** Reads a status column; exactly the three declared words are accepted. */
  function ParseStatus(text: string): (r: Option<MissionStatus>)
    ensures r.Some? ==> StatusText(r.value) == text
    ensures r.None? ==> forall s: MissionStatus :: StatusText(s) != text
  {
    if text == "pending" then Some(Pending)
    else if text == "approved" then Some(Approved)
    else if text == "rejected" then Some(Rejected)
    else None
  }

  function KindText(k: LedgerKind): string {
    match k
    case Points => "points"
    case Coins => "coins"
  }

  function ParseKind(text: string): (r: Option<LedgerKind>)
    ensures r.Some? ==> KindText(r.value) == text
    ensures r.None? ==> forall k: LedgerKind :: KindText(k) != text
  {
    if text == "points" then Some(Points)
    else if text == "coins" then Some(Coins)
    else None
  }

  function DirectionText(d: LedgerDirection): string {
    match d
    case Credit => "credit"
    case Debit => "debit"
  }

  function ParseDirection(text: string): (r: Option<LedgerDirection>)
    ensures r.Some? ==> DirectionText(r.value) == text
    ensures r.None? ==> forall d: LedgerDirection :: DirectionText(d) != text
  {
    if text == "credit" then Some(Credit)
    else if text == "debit" then Some(Debit)
    else None
  }

  /** Reads a `profiles.role` column; any other text is `Unrecognized`. */
  function ParseRole(text: string): (r: UserRole)
    ensures r == Fan <==> text == "fan"
    ensures r == Creator <==> text == "creator"
    ensures r == Admin <==> text == "admin"
  {
    if text == "fan" then Fan
    else if text == "creator" then Creator
    else if text == "admin" then Admin
    else Unrecognized
  }

  /** Each status has its own text, so reading it back gives the status. */
  lemma StatusTextRoundTrip(s: MissionStatus)
    ensures ParseStatus(StatusText(s)) == Some(s)
  {
  }
}
