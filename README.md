# Rankio core, modelled in Dafny

Rankio is a fan-engagement web app. Creators publish missions. Fans attempt them and upload
proof screenshots. Creators approve or reject the attempts, and an approval credits points
to the fan's wallet and appends an entry to a points ledger. Fans also spin a daily wheel,
follow a leaderboard and browse their ledger history. Middleware, guards and two login forms
route users by role.

This project models the decision logic and the table writes of those screens. The hosted
database is an in-memory store: the `Tables` value and the `Db` class in `settlement.dfy`,
holding missions, attempts, proofs, wallets and the ledger.

Each page handler that writes rows step by step is a method on a page class. It performs
the same ordered writes as the source and is proved equal to a pure function of the old
tables (`Approve`, `Reject`, `Review`). The properties are then proved about those
functions.

A failing database call is modelled by a `failAt` parameter. `failAt` is the number of the
call that returns an error, and 0 means every call succeeds. This makes the non-atomic
partial effects statable. A read that fails yields no row, as `data: null` does.

The model follows the code as written. It does not model an idealised exactly-once ledger.
The main results are in `reward_audit.dfy`:

- The reviews screen's duplicate check blocks only when exactly one earlier credit exists.
- The proofs screen has no duplicate check at all.
- A reviews-screen approval leaves the proof pending.
- Together these let one attempt be credited three times.
- A partial failure leaves a balance that no longer equals the sum of its ledger entries.

Files, one module per source file:

| file | models |
|---|---|
| `database_types.dfy` | row types and status/kind/direction/role encodings (lib/types/database.ts) |
| `settlement.dfy` | the store, reward references, ledger sums, the two review queues |
| `studio_reviews.dfy` | app/studio/reviews/page.tsx |
| `studio_proofs.dfy` | app/studio/proofs/page.tsx |
| `reward_audit.dfy` | properties relating the two review screens, the ledger and the balances |
| `proof_upload.dfy` | components/missions/ProofUpload.tsx |
| `wallet_page.dfy` | app/app/wallet/page.tsx |
| `guards.dfy` | lib/auth/guards.ts |
| `middleware.dfy` | lib/supabase/middleware.ts |
| `auth_login.dfy` | app/auth/login/page.tsx |
| `app_login.dfy` | app/login/page.tsx |
| `sidebar.dfy` | components/Sidebar.tsx |
| `project_dashboard.dfy` | components/ui/project-management-dashboard.tsx |
| `leaderboard.dfy` | app/app/leaderboard/page.tsx |
| `missions_page.dfy` | app/app/missions/page.tsx |
| `studio_missions.dfy` | app/studio/missions/page.tsx |
| `wheel.dfy` | app/app/wheel/page.tsx |
| `dashboard_page.dfy` | app/app/dashboard/page.tsx |

## Model

| member | source | states |
|---|---|---|
| DatabaseTypes.ParseStatus | lib/types/database.ts:5 | only "pending", "approved" and "rejected" are statuses, each decoding to its own case |
| DatabaseTypes.ParseKind | lib/types/database.ts:9 | only "points" and "coins" are ledger kinds |
| DatabaseTypes.ParseDirection | lib/types/database.ts:11 | only "credit" and "debit" are ledger directions |
| DatabaseTypes.ParseRole | lib/types/database.ts:1 | each of the three role names decodes to its role; any other text is an unrecognised role |
| DatabaseTypes.StatusTextRoundTrip | lib/types/database.ts:5 | encoding a status and decoding it gives the status back |
| Settlement.RewardCountAppend | app/studio/reviews/page.tsx:88-93 | appending an entry raises the count of entries referring to an attempt by one exactly when the entry refers to it |
| Settlement.PointsSumAppend | app/app/wallet/page.tsx:160 | appending an entry changes a profile's signed points sum by that entry's signed amount (credit +, debit −) |
| Settlement.SetPointsBalance | app/studio/reviews/page.tsx:120-123 | the balance update touches only that profile's points balance; a missing wallet row is not created |
| Settlement.RewardEntry | app/studio/reviews/page.tsx:128-138 | a reward entry refers to the attempt and adds its amount to the profile's points sum |
| Settlement.Db.SelectSingleReward | app/studio/reviews/page.tsx:88-93 | `.single()` on the duplicate check finds a row exactly when one entry refers to the attempt |
| Settlement.Db.SelectPointsBalance | app/studio/reviews/page.tsx:112-116 | the wallet read returns the stored points balance, or nothing when there is no wallet row |
| StudioReviews.Approve | app/studio/reviews/page.tsx:84-150 | exactly one earlier credit blocks every write unless the lookup itself fails, while none or several block nothing; past the status update only `status` and `approved_at` of that attempt change, the reviewer and other columns kept; a full run (including one after a failed lookup) approves the attempt whatever its status, sets the balance to (old or 0) + points and appends one points credit referring to the attempt; coins, missions, proofs and other rows are unchanged; a failed wallet update leaves the status approved and no credit; a failed ledger insert leaves the wallet credited |
| StudioReviews.MarkApproved | app/studio/reviews/page.tsx:101-107 | only that attempt changes: its status becomes approved and `approved_at` is set |
| StudioReviews.Reject | app/studio/reviews/page.tsx:152-170 | any earlier status becomes rejected; no wallet, ledger, proof or other attempt changes; a failed update changes nothing |
| StudioReviews.ReviewsPage.HandleApprove | app/studio/reviews/page.tsx:84-150 | the ordered writes leave the store equal to `Approve` of the old store; the spinner is cleared; the list is refetched only after a full run |
| StudioReviews.ReviewsPage.HandleReject | app/studio/reviews/page.tsx:152-170 | the store becomes `Reject` of the old store; the spinner is cleared |
| StudioProofs.RecordProofDecision | app/studio/proofs/page.tsx:76-84 | only that proof changes: its review status becomes the decision and the reviewer is recorded |
| StudioProofs.RecordDecision | app/studio/proofs/page.tsx:87-96 | only that attempt changes: status, reviewer, and `approved_at` set on approval and cleared on rejection |
| StudioProofs.Review | app/studio/proofs/page.tsx:68-140 | both rows take the decision and the reviewer, and no other column of either row changes; a failed proof update changes nothing; a failed attempt update leaves the proof updated and pays nothing; a rejection pays nothing; an approval appends a points credit of `points_base + points_bonus` for the attempt's owner and sets the balance to (old or 0) + reward, with no duplicate check; a failed ledger insert still credits the wallet; whatever fails, only the owner's wallet can change; a failed wallet read writes the reward alone over an existing balance; a failed wallet update keeps the credit and leaves the balances as they were |
| StudioProofs.GrantReward | app/studio/proofs/page.tsx:99-130 | the reward step appends at most one credit and touches only points balances; without a readable attempt and mission it changes nothing; a failed wallet read counts as no balance, so the reward alone is written |
| StudioProofs.ProofsPage.CreditAttempt | app/studio/proofs/page.tsx:100-129 | the four reward calls leave the store equal to `GrantReward` of the old store |
| StudioProofs.ProofsPage.HandleReview | app/studio/proofs/page.tsx:68-140 | with a signed-in reviewer, the ordered writes leave the store equal to `Review` of the old store; without one, nothing is written and the spinner stays on |
| RewardAudit.BothScreensCreditAlike | app/studio/reviews/page.tsx:210-264 | started from the same tables, full approvals on the two screens leave the same balances and append the same credit, up to its id and reason |
| RewardAudit.ProofsApproveTwiceCreditsTwice | app/studio/proofs/page.tsx:99-130 | approving one attempt twice on the proofs screen appends two credits for it and adds the reward twice |
| RewardAudit.ReviewsApproveKeepsProofQueued | app/studio/reviews/page.tsx:101-107 | a reviews-screen approval keeps every queued proof in the proofs screen's queue, while a completed approval removes the attempt from its own queue |
| RewardAudit.CreditedThreeTimes | app/studio/reviews/page.tsx:88-98 | after a reviews-screen approval a retry there is blocked, yet a proofs-screen approval credits again, after which the reviews screen credits a third time: three credits and three rewards on the balance |
| RewardAudit.ApproveKeepsBalancesMatched | app/studio/reviews/page.tsx:109-140 | a fully successful reviews-screen approval keeps each balance equal to its signed ledger sum |
| RewardAudit.ApproveLedgerFailureBreaksMatch | app/studio/reviews/page.tsx:125-140 | if the ledger insert fails after the wallet update, a nonzero reward leaves the balance off its ledger sum |
| RewardAudit.ReviewKeepsBalancesMatched | app/studio/proofs/page.tsx:99-130 | a fully successful proofs-screen decision keeps each balance equal to its signed ledger sum |
| RewardAudit.ReviewWalletFailureBreaksMatch | app/studio/proofs/page.tsx:121-129 | a failed wallet update after the ledger insert leaves the balance off its ledger sum |
| ProofUpload.ExtensionIsLastSegment | components/missions/ProofUpload.tsx:50 | `split('.').pop()` is the dot-free suffix after the last '.', or the whole name when there is none |
| ProofUpload.NoDotIsWholeName | components/missions/ProofUpload.tsx:50 | a name without '.' is its own extension |
| ProofUpload.ExtensionAfterDot | components/missions/ProofUpload.tsx:50-51 | the extension of `stem.ext` is `ext` when `ext` has no '.' |
| ProofUpload.ProofPathKeepsExtension | components/missions/ProofUpload.tsx:50-51 | the stored path `<user>/<attempt>.<ext>` keeps the picked file's extension |
| ProofUpload.SameAttemptSamePath | components/missions/ProofUpload.tsx:51-58 | two files of the same type for one attempt go to the same object |
| ProofUpload.Upsert | components/missions/ProofUpload.tsx:54-58 | the upload writes the object at its path and leaves every other object as it was |
| ProofUpload.UpsertTwice | components/missions/ProofUpload.tsx:54-58 | re-uploading to a path keeps only the latest bytes |
| ProofUpload.NewProofIsQueued | components/missions/ProofUpload.tsx:63-71 | the inserted row is a pending screenshot proof pointing at the stored path, and it appears in the mission creator's proof queue |
| ProofUpload.ProofUploader.HandleFileChange | components/missions/ProofUpload.tsx:21-33 | an empty selection changes nothing; otherwise the file and its preview are kept |
| ProofUpload.UploadEffects | components/missions/ProofUpload.tsx:49-71 | without a file, a user or a working storage call no object is written; otherwise the picked bytes are stored at the user/attempt path; a proof row is added, a pending screenshot with that path and every other row kept, only when the upload and the insert both succeed |
| ProofUpload.ProofPointsAtStoredObject | components/missions/ProofUpload.tsx:51-71 | after a successful upload the new proof's path names an object in the bucket that holds the picked file's bytes |
| ProofUpload.ProofUploader.StoreAndInsert | components/missions/ProofUpload.tsx:49-73 | the storage call writes the object unless it fails; the insert adds the row only after a stored object and unless it fails; the result says whether the row was added |
| ProofUpload.ProofUploader.HandleUpload | components/missions/ProofUpload.tsx:35-87 | with no file nothing is written; a missing user or a failed upload inserts no proof and leaves `uploaded` as it was; on success the object is stored and one pending proof inserted; `uploading` ends false on every path after it was set |
| WalletPage.DigitChar | app/app/wallet/page.tsx:160 | a decimal digit is one of '0'..'9' |
| WalletPage.NatText | app/app/wallet/page.tsx:160 | the decimal text of a number is a non-empty run of digits |
| WalletPage.NatTextRoundTrip | app/app/wallet/page.tsx:160 | reading back the decimal text of a number gives the number |
| WalletPage.IntTextRoundTrip | app/app/wallet/page.tsx:160 | reading back the text of an integer gives the integer |
| WalletPage.AmountText | app/app/wallet/page.tsx:160 | the shown amount starts with '+' exactly for credits and with '-' exactly for debits |
| WalletPage.AmountTextRoundTrip | app/app/wallet/page.tsx:160 | the shown amount determines the entry's direction and amount |
| WalletPage.KindBadge | app/app/wallet/page.tsx:162-166 | PUAN exactly for points entries and COIN exactly for coin entries |
| WalletPage.ReasonText | app/app/wallet/page.tsx:149 | a missing or empty reason shows "Sistem İşlemi"; otherwise the reason itself |
| WalletPage.ShownBalances | app/app/wallet/page.tsx:80-104 | both balances show 0 without a wallet row |
| WalletPage.OwnedMembers | app/app/wallet/page.tsx:34-38 | the ledger filtered to one profile holds exactly that profile's entries |
| WalletPage.OwnedAppend | app/app/wallet/page.tsx:34-38 | a new ledger entry goes to the end of its owner's entries, after the older ones, and leaves other profiles' entries unchanged |
| WalletPage.Reversed | app/app/wallet/page.tsx:39 | reversal keeps the length and mirrors the positions |
| WalletPage.NewestFirst | app/app/wallet/page.tsx:39-40 | descending order and the limit give at most twenty entries, the i-th being the i-th newest |
| WalletPage.RecentEntries | app/app/wallet/page.tsx:34-40 | the history is the viewer's newest entries first, at most twenty |
| WalletPage.NewestEntryFirst | app/app/wallet/page.tsx:34-40 | after the viewer gains an entry, it heads the history and the rest is the earlier history cut to keep twenty rows |
| WalletPage.RecentEntriesAreOwn | app/app/wallet/page.tsx:37 | every listed entry is one of the viewer's |
| WalletPage.HistoryControls | app/app/wallet/page.tsx:172-186 | "show more" appears exactly when more than five entries are loaded, and the empty panel exactly when the viewer has none |
| Guards.RedirectPath | lib/auth/guards.ts:101-112 | creator → /studio/dashboard, admin → /admin/proofs, fan or anything else → /app/dashboard, each iff |
| Guards.GetCurrentUser | lib/auth/guards.ts:18-41 | no user comes back exactly when the session has no user, a call fails, or the profile row is missing; otherwise the user and their profile |
| Guards.RequireAuth | lib/auth/guards.ts:46-54 | redirects to /auth/login exactly when there is no current user |
| Guards.RequireRole | lib/auth/guards.ts:59-75 | a listed role is admitted unchanged; an unlisted fan, creator or admin goes to `getRedirectPath` of its role; an unrecognised role is admitted |
| Guards.RequireFan | lib/auth/guards.ts:79-81 | admits every signed-in profile but a creator, who goes to /studio/dashboard |
| Guards.RequireCreator | lib/auth/guards.ts:86-88 | admits every signed-in profile but a fan, who goes to /app/dashboard |
| Guards.RequireAdmin | lib/auth/guards.ts:93-95 | admits admins and unrecognised roles; fans and creators go to their home pages |
| Guards.AdminNeverTurnedAway | lib/auth/guards.ts:59-96 | no guard turns an admin away |
| Middleware.Route | lib/supabase/middleware.ts:39-83 | unprotected paths pass; a protected path without a user goes to /auth/login; admins and users without a profile pass; a fan on a studio or admin route goes to /app/dashboard; a creator on an app or admin route goes to /studio/dashboard; every redirect of a signed-in user is `getRedirectPath` of the role |
| Middleware.PrefixCatchesLongerNames | lib/supabase/middleware.ts:42-44 | "/application" counts as an app route: a creator there is redirected and a visitor sent to log in |
| Middleware.MiddlewareAgreesWithGuards | lib/supabase/middleware.ts:61-83 | wherever the middleware lets a profiled user through, the matching page guard admits them too |
| AuthLogin.ErrorMessage | app/auth/login/page.tsx:33-37 | the fixed message exactly for "Invalid login credentials"; any other error gets the "Giriş yapılamadı: " prefix |
| AuthLogin.LoginTarget | app/auth/login/page.tsx:51-56 | creator → /studio/dashboard, admin → /admin/proofs, other or missing role → /app/dashboard |
| AuthLogin.LoginTargetAgreesWithGuards | app/auth/login/page.tsx:51-56 | the form sends every role where `getRedirectPath` does |
| AuthLogin.LoginForm.HandleLogin | app/auth/login/page.tsx:23-66 | a sign-in error shows its message with no profile lookup or navigation; otherwise one lookup and a push to the role's target; the spinner ends off |
| AppLogin.LegacyLoginTarget | app/login/page.tsx:42-47 | admin → /admin, creator → /studio/dashboard, other or missing role → /app/dashboard |
| AppLogin.LegacyTargetDiffersOnlyForAdmin | app/login/page.tsx:42-47 | the legacy form agrees with `getRedirectPath` exactly on non-admin roles |
| AppLogin.ToastText | app/login/page.tsx:49 | the error toast is the error's message, or "Giriş yapılamadı" when it is empty |
| AppLogin.LegacyLoginForm.HandleLogin | app/login/page.tsx:19-54 | a sign-in error aborts before the profile lookup; otherwise one lookup and a push to the legacy target; the spinner ends off |
| Sidebar.NavItems | components/Sidebar.tsx:43-54 | creators and admins get seven items with Studio second and the others in their original order; everyone else gets the six; Dashboard is always first |
| Sidebar.AtMostOneActive | components/Sidebar.tsx:73 | at most one item is active on any path, and no path below any link's path (link path, '/', anything) highlights any link |
| ProjectDashboard.Clamp | components/ui/project-management-dashboard.tsx:142-144 | the result lies in [min, max] when min ≤ max and is n when n is already in range |
| ProjectDashboard.Kept | components/ui/project-management-dashboard.tsx:132-134 | only non-empty class names are kept, and every non-empty argument is kept |
| ProjectDashboard.Cx | components/ui/project-management-dashboard.tsx:132-134 | the class string is empty exactly when no name is kept |
| ProjectDashboard.CxSingle | components/ui/project-management-dashboard.tsx:132-134 | one non-empty name is the whole class string, and a falsy or empty argument contributes nothing; with `CxAppend` every argument list is determined: the non-empty names in order, separated by single spaces |
| ProjectDashboard.JoinEmpty | components/ui/project-management-dashboard.tsx:132-134 | joining non-empty names is empty only for no names |
| ProjectDashboard.KeptAppend | components/ui/project-management-dashboard.tsx:132-134 | filtering distributes over concatenation |
| ProjectDashboard.JoinAppend | components/ui/project-management-dashboard.tsx:132-134 | joining a concatenation puts one space between the non-empty halves |
| ProjectDashboard.CxAppend | components/ui/project-management-dashboard.tsx:132-134 | `cx(a..., b...)` is `cx(a...)` and `cx(b...)` joined by one space when both are non-empty |
| ProjectDashboard.CountStatus | components/ui/project-management-dashboard.tsx:362-369 | a status count never exceeds the number of projects |
| ProjectDashboard.CountsSumToTotal | components/ui/project-management-dashboard.tsx:362-369 | the four counts, with a missing status counted as in progress, sum to the total |
| ProjectDashboard.CountByStatus | components/ui/project-management-dashboard.tsx:362-369 | the accumulator loop yields exactly the four status counts |
| ProjectDashboard.ComputedStats | components/ui/project-management-dashboard.tsx:360-376 | given stats are used as is; otherwise the in-progress, upcoming and completed counts and the total, in that order (paused is counted but not shown), the three never exceeding the total |
| ProjectDashboard.Filter | components/ui/project-management-dashboard.tsx:384-397 | filtering keeps every copy of each item that passes and no copy of any other |
| ProjectDashboard.SelectedExactly | components/ui/project-management-dashboard.tsx:384-397 | a project is selected exactly when it passes the status filter (missing = in progress, "all" keeps every one) and the search |
| ProjectDashboard.LastIndexOf | components/ui/project-management-dashboard.tsx:378-382 | the order map gives each id the position of its last occurrence |
| ProjectDashboard.ManualIgnoresDirection | components/ui/project-management-dashboard.tsx:398-413 | "manual" order follows the original positions whatever the direction |
| ProjectDashboard.DescendingIsReversed | components/ui/project-management-dashboard.tsx:398-414 | under "desc" the other keys are negated, so the list is in non-increasing key order |
| ProjectDashboard.SortInPlace | components/ui/project-management-dashboard.tsx:398-414 | the array ends sorted by the key and is a permutation of its old contents |
| ProjectDashboard.SwapDown | components/ui/project-management-dashboard.tsx:398-414 | one exchange moves the inserted item down and keeps the rest ordered |
| ProjectDashboard.InsertionDone | components/ui/project-management-dashboard.tsx:398-414 | an item at rest completes a sorted prefix |
| ProjectDashboard.InsertInto | components/ui/project-management-dashboard.tsx:398-414 | inserting one item extends the sorted prefix and permutes the array |
| ProjectDashboard.PreparedProjects | components/ui/project-management-dashboard.tsx:384-419 | the prepared list is a permutation of the selected projects, sorted by the chosen key and direction |
| ProjectDashboard.TotalPages | components/ui/project-management-dashboard.tsx:421 | at least one page, `ceil(count / pageSize)` for non-empty lists, one when virtualizing |
| ProjectDashboard.CurrentPage | components/ui/project-management-dashboard.tsx:422 | the current page lies in [1, totalPages] and is the requested page when that is in range |
| ProjectDashboard.PagedProjects | components/ui/project-management-dashboard.tsx:423-427 | the page is the slice from (page − 1) × pageSize, at most pageSize long, or the whole list when virtualizing |
| ProjectDashboard.EveryProjectOnItsPage | components/ui/project-management-dashboard.tsx:421-427 | every project appears on page `i / pageSize + 1` |
| Leaderboard.FirstWalletPoints | app/app/leaderboard/page.tsx:33 | the first wallet's balance, or 0 without one |
| Leaderboard.RankedUsers | app/app/leaderboard/page.tsx:30-34 | the query order is kept, the i-th row gets rank i+1 and its first wallet's points; no data gives an empty list |
| Leaderboard.PodiumAndOthersSplitRanking | app/app/leaderboard/page.tsx:36-37 | podium ++ others is the ranking, the podium holds at most three with ranks 1–3, and everyone else has rank ≥ 4 |
| Leaderboard.FindIndex | app/app/leaderboard/page.tsx:38 | −1 exactly when the id is absent; otherwise the first position holding it |
| Leaderboard.CurrentUserRankLocatesViewer | app/app/leaderboard/page.tsx:38 | the rank is 0 iff the viewer is absent; otherwise the entry at rank − 1 is the viewer's and carries that rank |
| Leaderboard.RankBarInBounds | app/app/leaderboard/page.tsx:83-98 | when the bar shows (rank > 3), `rankedUsers[rank − 1]` exists, is the viewer's, and is the entry the list below the podium shows |
| MissionsPage.MissionIds | app/app/missions/page.tsx:40-43 | the ids are exactly the missions among the attempts |
| MissionsPage.LatestStatusIsLastAttempt | app/app/missions/page.tsx:40-43 | a mission has a status iff it was attempted, and it is the status of its last attempt in query order |
| MissionsPage.AttemptsByMission | app/app/missions/page.tsx:40-43 | the reduce yields a map whose keys are the attempted missions, each holding its latest status; no data gives the empty map |
| MissionsPage.BadgeFor | app/app/missions/page.tsx:98-108 | no chip without an attempt; TAMAMLANDI iff approved, REDDEDİLDİ iff rejected, BEKLEMEDE otherwise, with the matching colour |
| MissionsPage.TypeLabel | app/app/missions/page.tsx:90-93 | comment, quiz and screenshot have their own labels, each iff; every other type shows RAID |
| MissionsPage.CardFor | app/app/missions/page.tsx:72-137 | the card shows the type label, a chip exactly when the mission was attempted, and `points_base` |
| MissionsPage.CardPointsOmitBonus | app/app/missions/page.tsx:135 | the card's points equal the credited reward exactly when the mission has no bonus |
| MissionsPage.CardBadgeFollowsLatestAttempt | app/app/missions/page.tsx:40-108 | built from the reduce's map, a card's chip reflects the viewer's latest attempt |
| StudioMissions.Classify | app/studio/missions/page.tsx:164-179 | Aktif iff active and not expired; Süresi Doldu iff expired, even when active; Pasif otherwise |
| StudioMissions.StateTextsDistinct | app/studio/missions/page.tsx:164-179 | the three chip texts differ, so a card shows exactly one status |
| StudioMissions.ToggleEnabledUnlessExpired | app/studio/missions/page.tsx:195 | the toggle is enabled exactly on cards not marked expired |
| StudioMissions.CardFor | app/studio/missions/page.tsx:132-198 | the card shows `points_base + points_bonus`, the type badge, its status and a toggle disabled when expired |
| StudioMissions.TypeBadge | app/studio/missions/page.tsx:77-87 | a declared type shows its emoji, a space and its label; any other type shows the comment badge |
| StudioMissions.KnownBadgesDistinct | app/studio/missions/page.tsx:78-83 | the four declared types have four different badges |
| StudioMissions.UnknownTypeShownDifferently | app/studio/missions/page.tsx:85 | a type outside the four is a comment mission to the creator but RAID to the fan |
| StudioMissions.SetActive | app/studio/missions/page.tsx:63-66 | the update writes `is_active` of that mission only; a missing id matches nothing |
| StudioMissions.ToggleUsesShownValue | app/studio/missions/page.tsx:61-66 | the toggle writes the negation of the shown flag: it flips a current card and changes nothing from a stale one |
| StudioMissions.StudioMissionsPage.ToggleActive | app/studio/missions/page.tsx:61-75 | a successful update writes `!currentStatus` and toasts accordingly; a failed one changes nothing and toasts the failure |
| Wheel.RewardsWellFormed | app/app/wheel/page.tsx:10-17 | six segments, each with a positive value and a text naming that value and its kind |
| Wheel.RewardIndex | app/app/wheel/page.tsx:64 | `(6 − r) % 6` lies in [0, 6) and cancels the offset modulo six |
| Wheel.RewardIndexIsInvolution | app/app/wheel/page.tsx:64 | the index map is its own inverse, and offset 0 selects the first reward |
| Wheel.RewardIndexInjective | app/app/wheel/page.tsx:64 | distinct offsets select distinct rewards |
| Wheel.RewardMatchesRestingAngle | app/app/wheel/page.tsx:53-64 | the paid segment is turned back onto the start angle exactly when the wheel started from a whole number of turns |
| Wheel.WheelPage.CheckCooldown | app/app/wheel/page.tsx:31-45 | without a user the page goes to /auth/login and keeps loading; otherwise `canSpin` is the answer (false when missing) and loading ends |
| Wheel.WheelPage.StartSpin | app/app/wheel/page.tsx:47-59 | nothing happens while spinning or when no spin is allowed; otherwise `spinning` is set and the rotation grows by exactly 1800 + r × 60 |
| Wheel.WheelPage.FinishSpin | app/app/wheel/page.tsx:62-90 | `spinning` ends false whatever follows; a saved spin records `REWARDS[(6 − r) % 6]` and clears `canSpin`; a failed save leaves `canSpin` as it was |
| Wheel.SpinOnce | app/app/wheel/page.tsx:47-90 | a started and saved spin adds one record with a positive value, and no further spin can start |
| DashboardPage.SuccessScore | app/app/dashboard/page.tsx:125 | the score is at most 100, is 100 iff ten or more missions are completed, and is ten per mission below that |
| DashboardPage.ScoreTracksXp | app/app/dashboard/page.tsx:106-125 | the score grows with completed missions and equals the XP divided by fifteen, capped at 100 |
| DashboardPage.EmailLocalPart | app/app/dashboard/page.tsx:78 | `split('@')[0]` is the '@'-free prefix ending at the first '@' |
| DashboardPage.GreetingName | app/app/dashboard/page.tsx:78 | the display name, else the e-mail's local part, else "Yolcu", skipping empty texts; never empty |
| DashboardPage.ShownStats | app/app/dashboard/page.tsx:106-125 | XP = completed × 150, both balances 0 without a wallet, and the capped score |
| DashboardPage.BalancesAgreeWithWalletPage | app/app/dashboard/page.tsx:112-119 | the home screen and the wallet screen show the same balances for the same wallet row |
| DashboardPage.DashboardPage.FetchProfile | app/app/dashboard/page.tsx:35-42 | the profile state is replaced only when a row is returned |
| DashboardPage.DashboardPage.FetchWallet | app/app/dashboard/page.tsx:44-51 | the wallet state is replaced only when a row is returned |
| DashboardPage.DashboardPage.FetchStats | app/app/dashboard/page.tsx:53-60 | completed missions become the count, or 0 when it is missing |
| DashboardPage.DashboardPage.Load | app/app/dashboard/page.tsx:22-33 | only a signed-in user triggers the three lookups, each with its own replacement rule |

## Left out

- Database calls, authentication sessions, storage, cookies, the router and toasts are outside code. The store is in memory, and the current user, query answers and failures are parameters.
- Concurrency is not modelled: double clicks, two reviewers racing, and an unawaited refetch. Sequential calls already exhibit the double credit.
- Server-side logic does not appear in the code: the `can_spin_today` call, the triggers the wheel page relies on for the wallet and ledger, and row-level policies.
- Queries that only load a list into state are not modelled. This covers `fetchPendingAttempts`, `loadProofs` and `fetchMissions`, and the refetch after a toggle. The reviews and proofs lists are modelled by the sets `ReviewQueue` and `ProofQueue`, without their ordering.
- Database ordering is taken as given. The ledger's insertion order stands for `created_at` order, and the leaderboard keeps the query's row order. Whether ordering by an embedded wallet column orders the profiles is not modelled.
- `Math.random` and `setTimeout` are left out: the wheel's offset `r` is a parameter, and the timer callback is a separate method.
- Dates and locale work are not modelled: `Date.parse`, `new Date()`, `toISOString`, `toLocaleString`, `localeCompare` and `toLowerCase`. They are parameters: a parse function, a collation key, a lowering function, a millisecond end date and `now` strings.
- Floating point is left out: progress percentages, chart heights, animation transforms and file-size display.
- The project dashboard's localStorage persistence, theme and keyboard listeners, and its page-reset effect are left out.
- ProjectDashboard.TotalPages: requires `pageSize >= 1`. The source would compute with Infinity or NaN for zero.
- ProjectDashboard.PagedProjects: requires `pageSize >= 1` for the same reason.
- ProjectDashboard.SortInPlace: sorts with an insertion sort proved sorted and a permutation. It does not prove that `Array.prototype.sort` is stable, or which order ties take.
- ProofUpload.ProofUploader.HandleFileChange: the data-URL preview is read asynchronously by `FileReader`. Here it arrives with the selection.
- The `onUploadComplete` callback and `router.refresh` are not modelled: they only trigger reloads.
- The `redirect("/login")` of a visitor who is not signed in on the wallet, leaderboard and fan missions pages is not modelled: the viewer's id is a parameter of the functions those pages use. The target "/login" is also not one of the routes the guards use.
- Middleware: the cookie `setAll` loop that copies session cookies onto the request and response is not modelled.
- StudioMissions.TypeBadge: names inherited from `Object.prototype`, such as "constructor", count as unknown types. In JavaScript they would find an inherited member and print "undefined undefined".
- DashboardPage.DashboardPage.FetchWallet: the source filters wallets on a `user_id` column, while the declared wallet row has `profile_id`. The query's answer is a parameter, so the model does not decide whether any row matches.
- DashboardPage.DashboardPage.FetchStats: the count comes from a `mission_submissions` table that the declared types do not include. The count is a parameter.
- Roles are the three declared values plus one case for any other stored text. Mission types are raw text.
- Points and balances are unbounded integers. JavaScript numbers are doubles, so amounts beyond 2^53 are not modelled.
