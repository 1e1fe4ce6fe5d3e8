// The fan's wallet screen (app/app/wallet/page.tsx): the two balances and the
// recent ledger entries, each shown with a sign, an amount, a kind badge and a
// reason.

module WalletPage {
  import opened DatabaseTypes

  /** `.limit(20)` on the ledger query. */
  const HistoryLimit := 20
  /** The "show more" button appears above this many entries. */
  const ShowMoreThreshold := 5
  const PointsBadge := "PUAN"
  const CoinsBadge := "COIN"
  const DefaultReason := "Sistem İşlemi"

  // Decimal text of the amounts, as JavaScript renders an integer.

  function DigitChar(d: nat): (c: char)
    requires d < 10
    ensures '0' <= c <= '9'
  {
    ('0' as int + d) as char
  }

  function DigitValue(c: char): int {
    c as int - '0' as int
  }

  /** Decimal digits of `n`, most significant first, no leading zeros. */
  function NatText(n: nat): (s: string)
    ensures |s| >= 1
    ensures forall i | 0 <= i < |s| :: '0' <= s[i] <= '9'
  {
    if n < 10 then [DigitChar(n)] else NatText(n / 10) + [DigitChar(n % 10)]
  }

  /** Reads a run of digits. */
  function ParseNat(s: string): int {
    if s == [] then 0 else 10 * ParseNat(s[..|s| - 1]) + DigitValue(s[|s| - 1])
  }

  lemma {:induction false} NatTextRoundTrip(n: nat)
    ensures ParseNat(NatText(n)) == n
  {
    if n >= 10 {
      var s := NatText(n / 10) + [DigitChar(n % 10)];
      assert s[..|s| - 1] == NatText(n / 10);
      NatTextRoundTrip(n / 10);
    }
  }

  /** `String(n)` for an integer. */
  function IntText(n: int): string {
    if n < 0 then "-" + NatText(-n) else NatText(n)
  }

  function ParseInt(s: string): int {
    if |s| >= 1 && s[0] == '-' then -ParseNat(s[1..]) else ParseNat(s)
  }

  lemma IntTextRoundTrip(n: int)
    ensures ParseInt(IntText(n)) == n
  {
    if n < 0 {
      assert IntText(n)[1..] == NatText(-n);
      NatTextRoundTrip(-n);
    } else {
      assert NatText(n)[0] != '-';
      NatTextRoundTrip(n);
    }
  }

  /** `{direction === 'credit' ? '+' : '-'}{amount}`. */
  function AmountText(e: LedgerEntry): (s: string)
    ensures |s| >= 2
    ensures s[0] == '+' <==> e.direction == Credit
    ensures s[0] == '-' <==> e.direction == Debit
  {
    (if e.direction == Credit then "+" else "-") + IntText(e.amount)
  }

  /** Reads a shown amount back into its direction and value. */
  function ReadAmount(s: string): Option<(LedgerDirection, int)> {
    if |s| == 0 then None
    else if s[0] == '+' then Some((Credit, ParseInt(s[1..])))
    else if s[0] == '-' then Some((Debit, ParseInt(s[1..])))
    else None
  }

  /** The shown amount determines the entry's direction and amount. */
  lemma AmountTextRoundTrip(e: LedgerEntry)
    ensures ReadAmount(AmountText(e)) == Some((e.direction, e.amount))
  {
    assert AmountText(e)[1..] == IntText(e.amount);
    IntTextRoundTrip(e.amount);
  }

  /** `kind === 'points' ? 'PUAN' : 'COIN'`. */
  function KindBadge(k: LedgerKind): (badge: string)
    ensures badge == PointsBadge <==> k == Points
    ensures badge == CoinsBadge <==> k == Coins
  {
    match k
    case Points => PointsBadge
    case Coins => CoinsBadge
  }

  /** `entry.reason || 'Sistem İşlemi'`: a missing or empty reason shows the default. */
  function ReasonText(reason: Option<string>): (shown: string)
    ensures shown != ""
    ensures reason.Some? && reason.value != "" ==> shown == reason.value
    ensures reason.None? || reason.value == "" ==> shown == DefaultReason
  {
    if reason.Some? && reason.value != "" then reason.value else DefaultReason
  }

  /** `wallet?.points_balance || 0` and `wallet?.coins_balance || 0`: a missing
      wallet shows zero on both cards. */
  function ShownBalances(wallet: Option<Wallet>): (r: (int, int))
    ensures wallet.None? ==> r == (0, 0)
    ensures wallet.Some? ==> r == (wallet.value.pointsBalance, wallet.value.coinsBalance)
  {
    match wallet
    case None => (0, 0)
    case Some(w) => (w.pointsBalance, w.coinsBalance)
  }

  /** The ledger entries of one profile, in ledger order. */
  function Owned(ledger: seq<LedgerEntry>, profileId: string): (r: seq<LedgerEntry>)
    ensures |r| <= |ledger|
  {
    if ledger == [] then []
    else
      var rest := Owned(ledger[..|ledger| - 1], profileId);
      var last := ledger[|ledger| - 1];
      if last.profileId == profileId then rest + [last] else rest
  }

  /** `.eq("profile_id", ...)`: the entries kept are exactly the profile's. */
  lemma {:induction false} OwnedMembers(ledger: seq<LedgerEntry>, profileId: string)
    ensures forall e | e in Owned(ledger, profileId) :: e in ledger && e.profileId == profileId
    ensures forall e | e in ledger && e.profileId == profileId :: e in Owned(ledger, profileId)
  {
    if ledger != [] {
      var init, last := ledger[..|ledger| - 1], ledger[|ledger| - 1];
      OwnedMembers(init, profileId);
      assert ledger == init + [last];
    }
  }

  /** A new ledger entry goes to the end of its owner's entries and leaves
      everyone else's as they were. */
  lemma OwnedAppend(ledger: seq<LedgerEntry>, e: LedgerEntry, profileId: string)
    ensures Owned(ledger + [e], profileId) == Owned(ledger, profileId) + (if e.profileId == profileId then [e] else [])
  {
    assert (ledger + [e])[..|ledger|] == ledger;
  }

  function Reversed<T>(s: seq<T>): (r: seq<T>)
    ensures |r| == |s|
    ensures forall i | 0 <= i < |s| :: r[i] == s[|s| - 1 - i]
  {
    if s == [] then [] else [s[|s| - 1]] + Reversed(s[..|s| - 1])
  }

  /** `.order("created_at", { ascending: false }).limit(20)` over entries kept
      in `created_at` order. */
  function NewestFirst(owned: seq<LedgerEntry>): (r: seq<LedgerEntry>)
    ensures |r| == (if |owned| < HistoryLimit then |owned| else HistoryLimit)
    ensures forall i | 0 <= i < |r| :: r[i] == owned[|owned| - 1 - i]
  {
    var newest := Reversed(owned);
    if |newest| <= HistoryLimit then newest else newest[..HistoryLimit]
  }

  /** The history list: the profile's entries newest first, at most twenty. */
  function RecentEntries(ledger: seq<LedgerEntry>, profileId: string): (r: seq<LedgerEntry>)
    ensures var owned := Owned(ledger, profileId);
            |r| == (if |owned| < HistoryLimit then |owned| else HistoryLimit)
            && forall i | 0 <= i < |r| :: r[i] == owned[|owned| - 1 - i]
  {
    NewestFirst(Owned(ledger, profileId))
  }

  /** Every listed entry is one of the viewer's. */
  lemma RecentEntriesAreOwn(ledger: seq<LedgerEntry>, profileId: string)
    ensures forall e | e in RecentEntries(ledger, profileId) :: e in ledger && e.profileId == profileId
  {
    var owned := Owned(ledger, profileId);
    OwnedMembers(ledger, profileId);
    var r := RecentEntries(ledger, profileId);
    forall e | e in r
      ensures e in ledger && e.profileId == profileId
    {
      var i :| 0 <= i < |r| && r[i] == e;
      assert owned[|owned| - 1 - i] == e;
    }
  }

  /** The newest entry of the viewer heads the history list, and the rest of
      the list is the older history, shortened to keep twenty rows. */
  lemma NewestEntryFirst(ledger: seq<LedgerEntry>, e: LedgerEntry)
    ensures var r := RecentEntries(ledger + [e], e.profileId);
            var before := RecentEntries(ledger, e.profileId);
            r[0] == e
            && r[1..] == (if |before| < HistoryLimit then before else before[..HistoryLimit - 1])
  {
    OwnedAppend(ledger, e, e.profileId);
    NewestFirstPush(Owned(ledger, e.profileId), e);
  }

  /** The same, over one profile's entries. */
  lemma NewestFirstPush(owned: seq<LedgerEntry>, e: LedgerEntry)
    ensures var r, before := NewestFirst(owned + [e]), NewestFirst(owned);
            r[0] == e && r[1..] == (if |before| < HistoryLimit then before else before[..HistoryLimit - 1])
  {
    var r, before := NewestFirst(owned + [e]), NewestFirst(owned);
    var expected := if |before| < HistoryLimit then before else before[..HistoryLimit - 1];
    assert r[0] == (owned + [e])[|owned|] == e;
    assert |r[1..]| == |expected|;
    forall i | 0 <= i < |expected|
      ensures r[1..][i] == expected[i]
    {
      var k := |owned| - 1 - i;
      assert r[i + 1] == (owned + [e])[k] == owned[k];
    }
  }

  /** `ledgerEntries.length > 5`. */
  predicate ShowsMoreButton(shown: seq<LedgerEntry>) {
    |shown| > ShowMoreThreshold
  }

  /** The button appears exactly when the viewer has more than five entries,
      and the empty-history panel exactly when they have none. */
  lemma HistoryControls(ledger: seq<LedgerEntry>, profileId: string)
    ensures ShowsMoreButton(RecentEntries(ledger, profileId)) <==> |Owned(ledger, profileId)| > ShowMoreThreshold
    ensures RecentEntries(ledger, profileId) == [] <==> forall e | e in ledger :: e.profileId != profileId
  {
    var owned := Owned(ledger, profileId);
    OwnedMembers(ledger, profileId);
    if RecentEntries(ledger, profileId) == [] {
      assert owned == [];
    } else {
      assert owned[|owned| - 1] in owned;
    }
  }
}
