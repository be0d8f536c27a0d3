/**
 * The bar of page links at the bottom of every page
 * (`components/BottomNavigation.tsx`): its seven items and which of them is
 * highlighted for the current path.
 */
module BottomNavigation {
  import opened Text

  datatype NavItem = NavItem(path: string, caption: string)

  const NavItems: seq<NavItem> := [
    NavItem("/", "Início"),
    NavItem("/summary", "Resumos"),
    NavItem("/parcels", "Parcelas"),
    NavItem("/limbo", "Limbo"),
    NavItem("/tasks", "Tarefas"),
    NavItem("/notes", "Anotações"),
    NavItem("/settings", "Config")
  ]

  /** `isActive`: the home item by equality, every other item when the path starts with its own. */
  predicate IsActive(pathname: string, path: string) {
    if path == "/" then pathname == "/" else StartsWith(pathname, path)
  }

  /** Two prefixes of one text, the shorter is a prefix of the longer. */
  lemma PrefixesNest(s: string, a: string, b: string)
    ensures StartsWith(s, a) && StartsWith(s, b) && |a| <= |b| ==> StartsWith(b, a)
  {
    if StartsWith(s, a) && StartsWith(s, b) && |a| <= |b| {
      assert b[..|a|] == s[..|b|][..|a|] == s[..|a|];
    }
  }

  /** A text that starts with `a` has `a`'s second and third letters. */
  lemma PrefixKeepsLetters(a: string, b: string)
    requires |a| >= 3
    ensures StartsWith(b, a) ==> b[1] == a[1] && b[2] == a[2]
  {
    if StartsWith(b, a) {
      assert b[..|a|][1] == b[1] && b[..|a|][2] == b[2];
    }
  }

  /** Seven items, each with its own path; no item's path other than the home one is a prefix of another's. */
  lemma NavItemsShape()
    ensures |NavItems| == 7
    ensures forall i, j :: 0 <= i < j < 7 ==> NavItems[i].path != NavItems[j].path
    ensures forall i, j :: 1 <= i < 7 && 1 <= j < 7 && i != j ==> !StartsWith(NavItems[j].path, NavItems[i].path)
  {
    forall i, j | 1 <= i < 7 && 1 <= j < 7 && i != j ensures !StartsWith(NavItems[j].path, NavItems[i].path) {
      var a, b := NavItems[i].path, NavItems[j].path;
      assert |a| >= 3 && |b| >= 3 && (a[1] != b[1] || a[2] != b[2]);
      PrefixKeepsLetters(a, b);
    }
  }

  /** Whatever the path, at most one item is highlighted. */
  lemma AtMostOneActive(pathname: string)
    ensures forall i, j :: 0 <= i < 7 && 0 <= j < 7 && IsActive(pathname, NavItems[i].path) && IsActive(pathname, NavItems[j].path) ==> i == j
  {
    NavItemsShape();
    forall i, j | 0 <= i < 7 && 0 <= j < 7 && i != j
      ensures !(IsActive(pathname, NavItems[i].path) && IsActive(pathname, NavItems[j].path))
    {
      PrefixesNest(pathname, NavItems[i].path, NavItems[j].path);
      PrefixesNest(pathname, NavItems[j].path, NavItems[i].path);
    }
  }

  /** On each item's own path exactly that item is highlighted. */
  lemma OwnPathActive(i: int)
    requires 0 <= i < 7
    ensures IsActive(NavItems[i].path, NavItems[i].path)
    ensures forall j :: 0 <= j < 7 && j != i ==> !IsActive(NavItems[i].path, NavItems[j].path)
  {
    AtMostOneActive(NavItems[i].path);
  }
}
