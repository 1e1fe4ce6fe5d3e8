// The list logic of the project dashboard widget
// (components/ui/project-management-dashboard.tsx): class-name joining, the
// status counts, the status and text filters, the sort, and pagination.

module ProjectDashboard {
  import opened DatabaseTypes

  datatype ProjectStatus = InProgress | Upcoming | Completed | Paused

  /** `progress` is a whole number of percent here. */
  datatype Project = Project(
    id: string,
    name: string,
    subtitle: Option<string>,
    date: Option<string>,
    progress: Option<int>,
    status: Option<ProjectStatus>)

  datatype StatusFilter = All | Only(status: ProjectStatus)
  datatype SortBy = Manual | ByDate | ByName | ByProgress
  datatype SortDir = Asc | Desc

  datatype Stat = Stat(id: string, title: string, value: int)

  // ---------------------------------------------------------------- helpers

  /** `Math.min(Math.max(n, min), max)`. */
  function Clamp(n: int, lo: int, hi: int): (r: int)
    ensures lo <= hi ==> lo <= r <= hi
    ensures lo <= n <= hi ==> r == n
    ensures n < lo && lo <= hi ==> r == lo
    ensures hi < n ==> r == hi
  {
    var atLeast := if n < lo then lo else n;
    if atLeast < hi then atLeast else hi
  }

  /** The non-empty strings among `cx`'s arguments (`false`, `null` and
      `undefined` are `None`), in order. */
  function Kept(classes: seq<Option<string>>): (r: seq<string>)
    ensures |r| <= |classes|
    ensures forall s | s in r :: s != ""
    // Every non-empty argument reaches the result.
    ensures forall i | 0 <= i < |classes| && classes[i].Some? && classes[i].value != "" :: classes[i].value in r
  {
    if classes == [] then []
    else
      var init, last := classes[..|classes| - 1], classes[|classes| - 1];
      assert forall i | 0 <= i < |init| :: init[i] == classes[i];
      Kept(init) + (if last.Some? && last.value != "" then [last.value] else [])
  }

  /** `parts.join(" ")`: the parts in order, with one space between neighbours. */
  function Join(parts: seq<string>): (r: string)
    ensures parts == [] ==> r == ""
    ensures |parts| == 1 ==> r == parts[0]
  {
    if parts == [] then ""
    else if |parts| == 1 then parts[0]
    else Join(parts[..|parts| - 1]) + " " + parts[|parts| - 1]
  }

  /** `cx(...classes)`. */
  function Cx(classes: seq<Option<string>>): (r: string)
    ensures r == "" <==> Kept(classes) == []
  {
    var parts := Kept(classes);
    JoinEmpty(parts);
    Join(parts)
  }

  lemma {:induction false} JoinEmpty(parts: seq<string>)
    requires forall s | s in parts :: s != ""
    ensures Join(parts) == "" <==> parts == []
  {
    if |parts| > 1 {
      assert parts[|parts| - 1] in parts;
    } else if |parts| == 1 {
      assert parts[0] in parts;
    }
  }

  lemma {:induction false} KeptAppend(a: seq<Option<string>>, b: seq<Option<string>>)
    ensures Kept(a + b) == Kept(a) + Kept(b)
    decreases |b|
  {
    if b == [] {
      assert a + b == a;
    } else {
      var init := b[..|b| - 1];
      assert (a + b)[..|a + b| - 1] == a + init;
      KeptAppend(a, init);
    }
  }

  lemma {:induction false} JoinAppend(p: seq<string>, q: seq<string>)
    ensures Join(p + q) == if p == [] then Join(q) else if q == [] then Join(p) else Join(p) + " " + Join(q)
    decreases |q|
  {
    if q == [] {
      assert p + q == p;
    } else if p == [] {
      assert p + q == q;
    } else if |q| == 1 {
      assert (p + q)[..|p + q| - 1] == p;
    } else {
      var init := q[..|q| - 1];
      assert (p + q)[..|p + q| - 1] == p + init;
      JoinAppend(p, init);
    }
  }

  /** A single argument: a non-empty name is the whole class string, and
      `false`, `null`, `undefined` or "" contribute nothing. Together with
      `CxAppend` this fixes `cx` on every argument list: each non-empty name
      appears, in argument order, separated by single spaces. */
  lemma CxSingle(c: Option<string>)
    ensures Kept([c]) == if c.Some? && c.value != "" then [c.value] else []
    ensures Cx([c]) == if c.Some? && c.value != "" then c.value else ""
  {
    assert [c][..0] == [];
  }

  /** Joining two argument lists: the two class strings, separated by one
      space when both are non-empty. */
  lemma CxAppend(a: seq<Option<string>>, b: seq<Option<string>>)
    ensures Cx(a + b) == if Cx(a) == "" then Cx(b) else if Cx(b) == "" then Cx(a) else Cx(a) + " " + Cx(b)
  {
    KeptAppend(a, b);
    JoinAppend(Kept(a), Kept(b));
  }

  // ------------------------------------------------------------ status counts

  /** `p.status ?? "inProgress"`. */
  function EffectiveStatus(p: Project): ProjectStatus {
    p.status.GetOr(InProgress)
  }

  function CountStatus(projects: seq<Project>, s: ProjectStatus): (n: nat)
    ensures n <= |projects|
  {
    if projects == [] then 0
    else CountStatus(projects[..|projects| - 1], s) + (if EffectiveStatus(projects[|projects| - 1]) == s then 1 else 0)
  }

  /** Every project is counted under exactly one status. */
  lemma {:induction false} CountsSumToTotal(projects: seq<Project>)
    ensures CountStatus(projects, InProgress) + CountStatus(projects, Upcoming)
            + CountStatus(projects, Completed) + CountStatus(projects, Paused) == |projects|
  {
    if projects != [] {
      CountsSumToTotal(projects[..|projects| - 1]);
    }
  }

  datatype StatusCounts = StatusCounts(inProgress: nat, upcoming: nat, completed: nat, paused: nat)

  /** The `reduce` that increments `acc[p.status ?? "inProgress"]`. */
  method CountByStatus(projects: seq<Project>) returns (acc: StatusCounts)
    ensures acc.inProgress == CountStatus(projects, InProgress)
    ensures acc.upcoming == CountStatus(projects, Upcoming)
    ensures acc.completed == CountStatus(projects, Completed)
    ensures acc.paused == CountStatus(projects, Paused)
  {
    acc := StatusCounts(0, 0, 0, 0);
    var i := 0;
    while i < |projects|
      invariant 0 <= i <= |projects|
      invariant acc.inProgress == CountStatus(projects[..i], InProgress)
      invariant acc.upcoming == CountStatus(projects[..i], Upcoming)
      invariant acc.completed == CountStatus(projects[..i], Completed)
      invariant acc.paused == CountStatus(projects[..i], Paused)
    {
      assert projects[..i + 1][..i] == projects[..i];
      match EffectiveStatus(projects[i]) {
        case InProgress => acc := acc.(inProgress := acc.inProgress + 1);
        case Upcoming => acc := acc.(upcoming := acc.upcoming + 1);
        case Completed => acc := acc.(completed := acc.completed + 1);
        case Paused => acc := acc.(paused := acc.paused + 1);
      }
      i := i + 1;
    }
    assert projects[..i] == projects;
  }

  /** `computedStats`: the caller's stats if given, otherwise three counts and
      the total. The paused count is not shown. */
  method ComputedStats(stats: Option<seq<Stat>>, projects: seq<Project>) returns (r: seq<Stat>)
    ensures stats.Some? ==> r == stats.value
    ensures stats.None? ==>
              |r| == 4
              && r[0] == Stat("inProgress", "In Progress", CountStatus(projects, InProgress))
              && r[1] == Stat("upcoming", "Upcoming", CountStatus(projects, Upcoming))
              && r[2] == Stat("completed", "Completed", CountStatus(projects, Completed))
              && r[3] == Stat("total", "Total Projects", |projects|)
              && r[0].value + r[1].value + r[2].value <= r[3].value
  {
    if stats.Some? {
      return stats.value;
    }
    var byStatus := CountByStatus(projects);
    CountsSumToTotal(projects);
    r := [Stat("inProgress", "In Progress", byStatus.inProgress),
          Stat("upcoming", "Upcoming", byStatus.upcoming),
          Stat("completed", "Completed", byStatus.completed),
          Stat("total", "Total Projects", |projects|)];
  }

  // ------------------------------------------------------------------ filters

  /** `list.filter(keep)`. */
  function Filter(list: seq<Project>, keep: Project -> bool): (r: seq<Project>)
    ensures multiset(r) <= multiset(list)
    // Each kept project keeps all of its copies, and no other project is kept.
    ensures forall x :: multiset(r)[x] == if keep(x) then multiset(list)[x] else 0
    ensures forall p | p in r :: keep(p)
    ensures forall p | p in list && keep(p) :: p in r
  {
    if list == [] then []
    else
      var init := list[..|list| - 1];
      var last := list[|list| - 1];
      assert list == init + [last];
      Filter(init, keep) + (if keep(last) then [last] else [])
  }

  /** `s.includes(sub)`. */
  predicate Contains(s: string, sub: string) {
    exists i | 0 <= i <= |s| - |sub| :: OccursAt(s, sub, i)
  }

  predicate OccursAt(s: string, sub: string, i: int) {
    0 <= i && i + |sub| <= |s| && s[i..i + |sub|] == sub
  }

  /** The text filter for the trimmed, lower-cased query `q`; `lower` is
      `toLowerCase`. */
  predicate Matches(p: Project, q: string, lower: string -> string) {
    Contains(lower(p.name), q) || (p.subtitle.Some? && Contains(lower(p.subtitle.value), q))
  }

  /** The projects `preparedProjects` keeps, before sorting. */
  function Selected(data: seq<Project>, filter: StatusFilter, q: string, lower: string -> string): seq<Project> {
    var byStatus := if filter.All? then data else Filter(data, p => EffectiveStatus(p) == filter.status);
    if q == "" then byStatus else Filter(byStatus, p => Matches(p, q, lower))
  }

  /** A project is kept exactly when it is in the data, has the filtered status
      ("all" keeps every status) and, for a non-empty query, matches it; and
      nothing is duplicated. */
  lemma SelectedExactly(data: seq<Project>, filter: StatusFilter, q: string, lower: string -> string, p: Project)
    ensures multiset(Selected(data, filter, q, lower)) <= multiset(data)
    ensures p in Selected(data, filter, q, lower) <==>
              p in data && (filter.All? || EffectiveStatus(p) == filter.status) && (q == "" || Matches(p, q, lower))
  {
    var byStatus := if filter.All? then data else Filter(data, p => EffectiveStatus(p) == filter.status);
    assert multiset(byStatus) <= multiset(data);
    if p in byStatus {
      assert multiset(byStatus)[p] > 0;
    }
    assert p in byStatus <==> p in data && (filter.All? || EffectiveStatus(p) == filter.status);
  }

  // --------------------------------------------------------------------- sort

  /** `orderMap.get(id)`: the map is filled in list order, so a repeated id
      keeps its last index; -1 stands for an absent id. */
  function LastIndexOf(data: seq<Project>, id: string): (r: int)
    ensures -1 <= r < |data|
    ensures r == -1 <==> forall k | 0 <= k < |data| :: data[k].id != id
    ensures r >= 0 ==> data[r].id == id && forall k | r < k < |data| :: data[k].id != id
  {
    if data == [] then -1
    else if data[|data| - 1].id == id then |data| - 1
    else LastIndexOf(data[..|data| - 1], id)
  }

  /** `parseDateLike(date)`: no date or an empty one is 0; `parseDate` is
      `Date.parse` with NaN read as 0. */
  function DateKey(date: Option<string>, parseDate: string -> int): int {
    if date.None? || date.value == "" then 0 else parseDate(date.value)
  }

  /** The key the comparator subtracts; `collate` ranks names as
      `localeCompare` orders them. */
  function BaseKey(p: Project, sortBy: SortBy, data: seq<Project>,
                   parseDate: string -> int, collate: string -> int): int {
    match sortBy
    case Manual => LastIndexOf(data, p.id)
    case ByDate => DateKey(p.date, parseDate)
    case ByName => collate(p.name)
    case ByProgress => p.progress.GetOr(0)
  }

  /** The comparator is `key(a) - key(b)`, negated under "desc" except for
      the manual order, so the list ends ascending in this key. */
  function SortKey(p: Project, sortBy: SortBy, sortDir: SortDir, data: seq<Project>,
                   parseDate: string -> int, collate: string -> int): int {
    var k := BaseKey(p, sortBy, data, parseDate, collate);
    if sortBy == Manual || sortDir == Asc then k else -k
  }

  /** The manual order follows the data's order whatever the direction. */
  lemma ManualIgnoresDirection(data: seq<Project>, i: nat, j: nat, parseDate: string -> int, collate: string -> int)
    requires i < j < |data|
    requires forall k, l | 0 <= k < l < |data| :: data[k].id != data[l].id
    ensures SortKey(data[i], Manual, Desc, data, parseDate, collate)
            < SortKey(data[j], Manual, Desc, data, parseDate, collate)
    ensures SortKey(data[i], Manual, Asc, data, parseDate, collate)
            == SortKey(data[i], Manual, Desc, data, parseDate, collate)
  {
  }

  predicate SortedBy(s: seq<Project>, key: Project -> int) {
    forall i, j | 0 <= i < j < |s| :: key(s[i]) <= key(s[j])
  }

  /** Sorted ascending on the descending key is sorted descending on the
      base key. */
  lemma DescendingIsReversed(s: seq<Project>, sortBy: SortBy, data: seq<Project>,
                             parseDate: string -> int, collate: string -> int)
    requires sortBy != Manual
    requires SortedBy(s, p => SortKey(p, sortBy, Desc, data, parseDate, collate))
    ensures forall i, j | 0 <= i < j < |s| ::
              BaseKey(s[i], sortBy, data, parseDate, collate) >= BaseKey(s[j], sortBy, data, parseDate, collate)
  {
    forall i, j | 0 <= i < j < |s|
      ensures BaseKey(s[i], sortBy, data, parseDate, collate) >= BaseKey(s[j], sortBy, data, parseDate, collate)
    {
      assert SortKey(s[i], sortBy, Desc, data, parseDate, collate) <= SortKey(s[j], sortBy, Desc, data, parseDate, collate);
    }
  }

  /** `list.sort(...)` on the copied array: insertion sort, which like the
      engine's sort keeps equal keys in their order. */
  method SortInPlace(a: array<Project>, key: Project -> int)
    modifies a
    ensures SortedBy(a[..], key)
    ensures multiset(a[..]) == multiset(old(a[..]))
  {
    var i := 0;
    while i < a.Length
      invariant 0 <= i <= a.Length
      invariant SortedBy(a[..i], key)
      invariant multiset(a[..]) == multiset(old(a[..]))
    {
      InsertInto(a, i, key);
      i := i + 1;
    }
    assert a[..i] == a[..];
  }

  /** In `s[..n + 1]` every pair of positions other than `j` is in order, and
      `s[j]` is at most everything after it. */
  predicate InsertionState(s: seq<Project>, n: int, j: int, key: Project -> int)
    requires 0 <= j <= n < |s|
  {
    (forall k, l | 0 <= k < l <= n && k != j && l != j :: key(s[k]) <= key(s[l]))
    && (forall l | j < l <= n :: key(s[j]) <= key(s[l]))
  }

  lemma SwapDown(s: seq<Project>, n: int, j: int, key: Project -> int)
    requires 0 < j <= n < |s| && InsertionState(s, n, j, key) && key(s[j - 1]) > key(s[j])
    ensures InsertionState(s[j - 1 := s[j]][j := s[j - 1]], n, j - 1, key)
  {
  }

  lemma InsertionDone(s: seq<Project>, n: int, j: int, key: Project -> int)
    requires 0 <= j <= n < |s| && InsertionState(s, n, j, key)
    requires j == 0 || key(s[j - 1]) <= key(s[j])
    ensures SortedBy(s[..n + 1], key)
  {
  }

  /** Moves `a[i]` down by adjacent swaps to its place in the sorted prefix. */
  method InsertInto(a: array<Project>, i: int, key: Project -> int)
    requires 0 <= i < a.Length && SortedBy(a[..i], key)
    modifies a
    ensures SortedBy(a[..i + 1], key)
    ensures multiset(a[..]) == multiset(old(a[..]))
  {
    var j := i;
    assert InsertionState(a[..], i, j, key) by {
      assert forall k | 0 <= k < i :: a[..][k] == a[..i][k];
    }
    while j > 0 && key(a[j - 1]) > key(a[j])
      invariant 0 <= j <= i
      invariant multiset(a[..]) == multiset(old(a[..]))
      invariant InsertionState(a[..], i, j, key)
    {
      ghost var before := a[..];
      SwapDown(before, i, j, key);
      a[j - 1], a[j] := a[j], a[j - 1];
      assert a[..] == before[j - 1 := before[j]][j := before[j - 1]];
      j := j - 1;
    }
    InsertionDone(a[..], i, j, key);
    assert a[..i + 1] == a[..][..i + 1];
  }

  /** `preparedProjects`: the selected projects, sorted. */
  method PreparedProjects(data: seq<Project>, filter: StatusFilter, q: string, lower: string -> string,
                          sortBy: SortBy, sortDir: SortDir, parseDate: string -> int, collate: string -> int)
    returns (list: seq<Project>)
    ensures multiset(list) == multiset(Selected(data, filter, q, lower))
    ensures SortedBy(list, p => SortKey(p, sortBy, sortDir, data, parseDate, collate))
  {
    var selected := Selected(data, filter, q, lower);
    var a := new Project[|selected|](k requires 0 <= k < |selected| => selected[k]);
    assert a[..] == selected;
    SortInPlace(a, p => SortKey(p, sortBy, sortDir, data, parseDate, collate));
    list := a[..];
  }

  // --------------------------------------------------------------- pagination

  /** `virtualizeList ? 1 : Math.max(1, Math.ceil(count / pageSize))`. */
  function TotalPages(count: nat, pageSize: nat, virtualize: bool): (r: int)
    requires pageSize >= 1
    ensures r >= 1
    ensures virtualize || count == 0 ==> r == 1
    ensures !virtualize && count > 0 ==> (r - 1) * pageSize < count <= r * pageSize
  {
    if virtualize then 1
    else
      var pages := (count + pageSize - 1) / pageSize;
      if pages < 1 then 1 else pages
  }

  /** `virtualizeList ? 1 : clamp(page, 1, totalPages)`. */
  function CurrentPage(page: int, totalPages: int, virtualize: bool): (r: int)
    requires totalPages >= 1
    ensures 1 <= r <= totalPages
    ensures !virtualize && 1 <= page <= totalPages ==> r == page
  {
    if virtualize then 1 else Clamp(page, 1, totalPages)
  }

  /** `list.slice(start, start + pageSize)` with `start = (currentPage - 1) * pageSize`,
      or the whole list when virtualizing. */
  function PagedProjects(list: seq<Project>, currentPage: int, pageSize: nat, virtualize: bool): (r: seq<Project>)
    requires pageSize >= 1 && currentPage >= 1
    ensures virtualize ==> r == list
    ensures !virtualize ==>
              var start := (currentPage - 1) * pageSize;
              |r| <= pageSize
              && |r| == (if start >= |list| then 0 else if |list| - start < pageSize then |list| - start else pageSize)
              && forall k | 0 <= k < |r| :: r[k] == list[start + k]
  {
    if virtualize then list
    else
      var start := (currentPage - 1) * pageSize;
      if start >= |list| then []
      else list[start..if start + pageSize < |list| then start + pageSize else |list|]
  }

  /** Every project is reachable: the i-th one is on page `i / pageSize + 1`,
      which the pager accepts, at offset `i % pageSize`. */
  lemma EveryProjectOnItsPage(list: seq<Project>, pageSize: nat, i: nat)
    requires pageSize >= 1 && i < |list|
    ensures var page := i / pageSize + 1;
            var total := TotalPages(|list|, pageSize, false);
            page <= total
            && CurrentPage(page, total, false) == page
            && i % pageSize < |PagedProjects(list, page, pageSize, false)|
            && PagedProjects(list, page, pageSize, false)[i % pageSize] == list[i]
  {
    var q := i / pageSize;
    var start := q * pageSize;
    DivBounds(i, pageSize);
    var rem := i - start;
    var page := q + 1;
    var total := TotalPages(|list|, pageSize, false);
    MulCancel(q, total, pageSize);
    assert (page - 1) * pageSize == start;
    var r := PagedProjects(list, page, pageSize, false);
    assert rem < |r| && r[rem] == list[start + rem];
  }

  /** `i` lies in the block of `pageSize` starting at `(i / pageSize) * pageSize`. */
  lemma DivBounds(i: nat, d: nat)
    requires d >= 1
    ensures (i / d) * d <= i < (i / d) * d + d
    ensures i % d == i - (i / d) * d
  {
  }

  lemma MulMono(a: int, b: int, d: int)
    requires a <= b && d >= 0
    ensures a * d <= b * d
  {
    assert b * d - a * d == (b - a) * d;
  }

  lemma MulCancel(a: int, b: int, d: int)
    requires d > 0 && a * d < b * d
    ensures a < b
  {
    if a >= b {
      MulMono(b, a, d);
    }
  }
}
