/**
 * The dashboard sidebar: its five navigation items and the rule that marks
 * an item, or the Settings button, active for the current pathname.
 */
module DashboardLayout {

  datatype NavItem = NavItem(href: string, title: string)

  const DashboardHref: string := "/dashboard"
  const SettingsHref: string := "/dashboard/settings"

  /** navItems, in sidebar order. */
  const NavItems: seq<NavItem> := [
    NavItem("/dashboard", "Dashboard"),
    NavItem("/dashboard/events", "Events"),
    NavItem("/dashboard/students", "Students"),
    NavItem("/dashboard/reports", "Reports"),
    NavItem("/dashboard/fraud-detection", "Fraud Detection")
  ]

  /** `pathname.startsWith(href) && (href === '/dashboard' ? pathname === href : true)`. */
  predicate IsActive(pathname: string, href: string)
  {
    href <= pathname && (if href == DashboardHref then pathname == href else true)
  }

  /** The Settings button: `pathname === '/dashboard/settings'`. */
  predicate SettingsActive(pathname: string)
  {
    pathname == SettingsHref
  }

  /** The Dashboard item is active on exactly its own path, not on its sub-pages. */
  lemma DashboardActiveExactly(pathname: string)
    ensures IsActive(pathname, NavItems[0].href) <==> pathname == "/dashboard"
  {
  }

  /** Any other item is active on its own path and every path below it. */
  lemma OtherItemActiveByPrefix(pathname: string, i: nat)
    requires 1 <= i < |NavItems|
    ensures IsActive(pathname, NavItems[i].href) <==> NavItems[i].href <= pathname
  {
    assert NavItems[i].href != DashboardHref by {
      assert |NavItems[i].href| > |DashboardHref|;
    }
  }

  /** Two prefixes of one string are prefixes of each other. */
  lemma PrefixesNest(a: string, b: string, p: string)
    requires a <= p && b <= p && |a| <= |b|
    ensures a <= b
  {
    assert b[..|a|] == p[..|a|];
  }

  /** Among the four non-dashboard hrefs, none is a prefix of another. */
  lemma HrefsDisjoint(i: nat, j: nat)
    requires 1 <= i < |NavItems| && 1 <= j < |NavItems| && i != j
    ensures !(NavItems[i].href <= NavItems[j].href)
  {
    var a, b := NavItems[i].href, NavItems[j].href;
    // The hrefs share "/dashboard/" and differ at the next character.
    assert a[11] != b[11] || |a| > |b| by {
      assert NavItems[1].href[11] == 'e';
      assert NavItems[2].href[11] == 's';
      assert NavItems[3].href[11] == 'r';
      assert NavItems[4].href[11] == 'f';
    }
  }

  /** For any pathname at most one sidebar item is active. */
  lemma AtMostOneActive(pathname: string)
    ensures forall i, j :: 0 <= i < j < |NavItems| && IsActive(pathname, NavItems[i].href) ==>
      !IsActive(pathname, NavItems[j].href)
  {
    forall i, j | 0 <= i < j < |NavItems| && IsActive(pathname, NavItems[i].href)
      ensures !IsActive(pathname, NavItems[j].href)
    {
      var a, b := NavItems[i].href, NavItems[j].href;
      if i == 0 {
        assert |b| > |pathname|;
      } else if b <= pathname {
        if |a| <= |b| {
          PrefixesNest(a, b, pathname);
          HrefsDisjoint(i, j);
        } else {
          PrefixesNest(b, a, pathname);
          HrefsDisjoint(j, i);
        }
      }
    }
  }

  /** On the settings page no navigation item is active, only the Settings button. */
  lemma SettingsPageActivatesOnlySettings(pathname: string)
    requires SettingsActive(pathname)
    ensures forall i :: 0 <= i < |NavItems| ==> !IsActive(pathname, NavItems[i].href)
  {
    forall i | 0 <= i < |NavItems| ensures !IsActive(pathname, NavItems[i].href) {
      if 1 <= i {
        assert pathname[11] == 's';
        assert NavItems[i].href[11] != 's' || NavItems[i].href[12] != 'e';
      }
    }
  }

  /** A page below Events, such as /dashboard/events/x, activates Events and nothing else. */
  lemma EventsSubpageActivatesOnlyEvents()
    ensures IsActive("/dashboard/events/x", NavItems[1].href)
    ensures forall i :: 0 <= i < |NavItems| && i != 1 ==> !IsActive("/dashboard/events/x", NavItems[i].href)
  {
    AtMostOneActive("/dashboard/events/x");
  }
}
