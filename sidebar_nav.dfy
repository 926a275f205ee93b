/** The sidebar of src/components/navigation/SidebarNav.tsx: the navigation entries, in
    order, and which of them is highlighted for the current path. */
module SidebarNav {
  import opened Strings

  datatype NavItem = NavItem(href: string, caption: string)

  /** The entries of the sidebar, top to bottom. The purchase-order page has none. */
  const NavItems: seq<NavItem> := [
    NavItem("/", "Dashboard"),
    NavItem("/services", "Services"),
    NavItem("/stock", "Stock"),
    NavItem("/expenses", "Expenses"),
    NavItem("/staff", "Staff")
  ]

  /** An entry is highlighted when the path is its link, or, except for the dashboard,
      when the path merely begins with its link. */
  predicate IsActive(path: string, href: string) {
    path == href || (href != "/" && StartsWith(path, href))
  }

  /** The highlight flags of the entries, in sidebar order. */
  function ActiveFlags(path: string): (flags: seq<bool>)
    ensures |flags| == |NavItems|
    ensures forall i :: 0 <= i < |NavItems| ==> (flags[i] <==> IsActive(path, NavItems[i].href))
  {
    seq(|NavItems|, i requires 0 <= i < |NavItems| => IsActive(path, NavItems[i].href))
  }

  /** The dashboard entry is highlighted on the root path only. */
  lemma RootOnlyAtRoot(path: string)
    ensures IsActive(path, "/") <==> path == "/"
  {
  }

  /** Every other entry is highlighted exactly on the paths that begin with its link: its
      own page and the pages below it, but also any path that merely shares the text, as
      "/stocktake" does with "/stock". */
  lemma {:induction false} ActiveIffPrefix(path: string, href: string)
    requires href != "/"
    ensures IsActive(path, href) <==> StartsWith(path, href)
    ensures IsActive(href + "/new", href)
    ensures IsActive("/stocktake", "/stock")
  {
    assert (href + "/new")[..|href|] == href;
    assert "/stocktake"[..|"/stock"|] == "/stock";
  }

  /** Two prefixes of the same path are prefixes of one another. */
  lemma PrefixesNest(path: string, a: string, b: string)
    requires StartsWith(path, a) && StartsWith(path, b) && |a| <= |b|
    ensures StartsWith(b, a)
  {
    assert b[..|a|] == path[..|b|][..|a|];
  }

  /** No two links of the sidebar other than "/" are prefixes of one another. */
  lemma LinksPrefixFree(i: nat, j: nat)
    requires i < |NavItems| && j < |NavItems| && i != j
    ensures NavItems[i].href != "/" && NavItems[j].href != "/" ==> !StartsWith(NavItems[j].href, NavItems[i].href)
  {
    var a, b := NavItems[i].href, NavItems[j].href;
    if a != "/" && b != "/" {
      var k := if a[1] != b[1] then 1 else 3;
      DifferAt(a, b, k);
    }
  }

  /** Two texts that differ at a position both reach are not prefixes of one another. */
  lemma DifferAt(a: string, b: string, k: nat)
    requires k < |a| && k < |b| && a[k] != b[k]
    ensures !StartsWith(b, a) && !StartsWith(a, b)
  {
  }

  /** Whatever the path, at most one entry is highlighted. */
  lemma {:induction false} AtMostOneActive(path: string, i: nat, j: nat)
    requires i < |NavItems| && j < |NavItems| && i != j
    ensures !(IsActive(path, NavItems[i].href) && IsActive(path, NavItems[j].href))
  {
    var a, b := NavItems[i].href, NavItems[j].href;
    if IsActive(path, a) && IsActive(path, b) && a != "/" && b != "/" {
      LinksPrefixFree(i, j);
      LinksPrefixFree(j, i);
      if |a| <= |b| {
        PrefixesNest(path, a, b);
      } else {
        PrefixesNest(path, b, a);
      }
    }
  }

  /** On the purchase-order page no entry is highlighted. */
  lemma NoneActiveOnPurchaseOrders()
    ensures forall i :: 0 <= i < |NavItems| ==> !ActiveFlags("/purchase-orders")[i]
  {
    forall i | 1 <= i < |NavItems| ensures !IsActive("/purchase-orders", NavItems[i].href) {
      DifferAt(NavItems[i].href, "/purchase-orders", 1);
    }
  }
}
