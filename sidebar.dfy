// The fan app's side navigation (components/Sidebar.tsx): six fixed links,
// with a Studio link spliced in second for creators and admins.

module Sidebar {
  import opened DatabaseTypes

  datatype NavItem = NavItem(title: string, href: string)

  const Dashboard := NavItem("Dashboard", "/app/dashboard")
  const Studio := NavItem("Studio", "/studio/dashboard")

  /** The literal `navItems` array. */
  function BaseItems(): seq<NavItem> {
    [Dashboard,
     NavItem("Görevler", "/app/missions"),
     NavItem("Günlük Çark", "/app/wheel"),
     NavItem("Liderlik", "/app/leaderboard"),
     NavItem("Cüzdan", "/app/wallet"),
     NavItem("Profil", "/app/profile")]
  }

  predicate SeesStudio(role: Option<UserRole>) {
    role == Some(Creator) || role == Some(Admin)
  }

  /** `navItems`, after `splice(1, 0, studio)` when the profile's role is
      creator or admin. */
  method NavItems(role: Option<UserRole>) returns (items: seq<NavItem>)
    ensures |items| == if SeesStudio(role) then 7 else 6
    ensures items[0] == Dashboard
    ensures SeesStudio(role) ==> items[1] == Studio && items[..1] + items[2..] == BaseItems()
    ensures !SeesStudio(role) ==> items == BaseItems()
  {
    items := BaseItems();
    if SeesStudio(role) {
      items := items[..1] + [Studio] + items[1..];
    }
  }

  /** `pathname === item.href`. */
  predicate IsActive(pathname: string, item: NavItem) {
    pathname == item.href
  }

  /** No two links share a path, so at most one is highlighted; a page below a
      link's path (a single mission, say) highlights none. */
  lemma AtMostOneActive(pathname: string, withStudio: bool)
    ensures var items := if withStudio then BaseItems()[..1] + [Studio] + BaseItems()[1..] else BaseItems();
            forall i, j | 0 <= i < j < |items| :: !(IsActive(pathname, items[i]) && IsActive(pathname, items[j]))
    ensures forall item, other, suffix | item in BaseItems() + [Studio] && other in BaseItems() + [Studio]
                                         && suffix != "" && suffix[0] == '/' ::
              !IsActive(item.href + suffix, other)
  {
    forall item, other, suffix | item in BaseItems() + [Studio] && other in BaseItems() + [Studio]
                                 && suffix != "" && suffix[0] == '/'
      ensures !IsActive(item.href + suffix, other)
    {
      var path := item.href + suffix;
      assert path[|item.href|] == '/';
    }
  }
}
