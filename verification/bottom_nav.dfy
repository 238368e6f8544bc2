/**
 * The bottom navigation bar: four items and the rule that highlights the
 * item of the current location.
 */
module BottomNav {
  import opened Wrappers
  import opened Text

  datatype NavItem = NavItem(href: string, caption: string)

  const NavItems: seq<NavItem> := [
    NavItem("/", "Home"),
    NavItem("/products", "Products"),
    NavItem("/jobs", "Jobs"),
    NavItem("/requests", "Requests")
  ]

  /**
   * The `isActive` expression with JavaScript precedence: the condition of
   * the `?:` is the whole disjunction in front of it.
   */
  predicate IsActive(location: string, href: string)
  {
    if location == href || (location == "/" && href == "/") then location == href
    else StartsWith(location, href) && href != "/"
  }

  /** The rule reads: the exact href, or a prefix of the location other than the root. */
  lemma IsActiveSimplified(location: string, href: string)
    ensures IsActive(location, href) <==> location == href || (href != "/" && StartsWith(location, href))
  {
  }

  /** Home is highlighted on the root only. */
  lemma HomeActiveIffRoot(location: string)
    ensures IsActive(location, "/") <==> location == "/"
  {
  }

  /**
   * The section a location belongs to, as an index into the nav items:
   * the root is Home; otherwise the item whose href starts the location.
   */
  function Section(location: string): (r: Option<nat>)
    ensures r.Some? ==> r.value < |NavItems|
  {
    if location == "/" then Some(0)
    else if StartsWith(location, "/products") then Some(1)
    else if StartsWith(location, "/jobs") then Some(2)
    else if StartsWith(location, "/requests") then Some(3)
    else None
  }

  /** A location that starts with two hrefs has the same second character as both. */
  lemma SharedSecondChar(location: string, a: string, b: string)
    requires |a| >= 2 && |b| >= 2 && StartsWith(location, a) && StartsWith(location, b)
    ensures a[1] == b[1]
  {
    assert a[1] == location[1] && b[1] == location[1];
  }

  /** Exactly the item of the location's section is highlighted. */
  lemma IsActiveIffSection(location: string, i: nat)
    requires i < |NavItems|
    ensures IsActive(location, NavItems[i].href) <==> Section(location) == Some(i)
  {
    if location != "/" {
      var p, j, q := "/products", "/jobs", "/requests";
      if StartsWith(location, p) && StartsWith(location, j) { SharedSecondChar(location, p, j); }
      if StartsWith(location, p) && StartsWith(location, q) { SharedSecondChar(location, p, q); }
      if StartsWith(location, j) && StartsWith(location, q) { SharedSecondChar(location, j, q); }
    }
  }

  /** At most one item is highlighted, whatever the location. */
  lemma AtMostOneActive(location: string, i: nat, j: nat)
    requires i < j < |NavItems|
    ensures !(IsActive(location, NavItems[i].href) && IsActive(location, NavItems[j].href))
  {
    IsActiveIffSection(location, i);
    IsActiveIffSection(location, j);
  }

  /** A sub-path highlights its section. */
  lemma SubPathActivatesProducts()
    ensures IsActive("/products/7", "/products")
  {
    assert "/products/7"[..9] == "/products";
  }

  /** The prefix test has no separator check: "/jobsboard" highlights Jobs. */
  lemma JobsboardActivatesJobs()
    ensures IsActive("/jobsboard", "/jobs")
  {
    assert "/jobsboard"[..5] == "/jobs";
  }

  /** The sign-in page lies in no section: nothing is highlighted there. */
  lemma AuthActivatesNone(i: nat)
    requires i < |NavItems|
    ensures !IsActive("/auth", NavItems[i].href)
  {
    IsActiveIffSection("/auth", i);
    assert "/auth"[1] == 'a';
  }
}
