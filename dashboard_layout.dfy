/**
 * client/src/components/DashboardLayout.tsx: the sidebar of the dashboard pages. The layout
 * keeps the titles of the expanded groups and whether the sidebar is open; the helpers decide
 * which links are highlighted and what the avatar shows.
 */
module DashboardLayout {
  import opened Wrappers
  import opened Text
  import opened ListToggle

  /** A sidebar entry: a link, a group of links, or both. */
  datatype NavItem = NavItem(title: string, href: Option<string>, children: Option<seq<NavItem>>)

  function Link(title: string, href: string): NavItem {
    NavItem(title, Some(href), None)
  }

  function Group(title: string, children: seq<NavItem>): NavItem {
    NavItem(title, None, Some(children))
  }

  const Navigation: seq<NavItem> := [
    Link("Dashboard", "/dashboard"),
    Link("Clients", "/clients"),
    Link("Projects", "/projects"),
    Group("Sales", [Link("Estimates", "/estimates"), Link("Opportunities", "/opportunities"), Link("Receipts", "/receipts")]),
    Group("Accounting", [Link("Invoices", "/invoices"), Link("Payments", "/payments"), Link("Expenses", "/expenses"),
                         Link("Chart of Accounts", "/chart-of-accounts")]),
    Group("Products & Services", [Link("Products", "/products"), Link("Services", "/services")]),
    Group("HR", [Link("Employees", "/employees"), Link("Departments", "/departments")]),
    Link("Reports", "/reports"),
    Link("Settings", "/settings")
  ]

  // ---------------------------------------------------------------- isActive / hasActiveChild

  /** `isActive`: no href never matches; otherwise the location is the href or lies below it. */
  function IsActive(location: string, href: Option<string>): (r: bool)
    ensures href.None? || href.value == "" ==> !r
    ensures href.Some? && href.value != "" ==>
              (r <==> location == href.value || (|location| > |href.value| && location[..|href.value| + 1] == href.value + "/"))
  {
    if href.None? || href.value == "" then false
    else location == href.value || href.value + "/" <= location
  }

  /** A link stays highlighted on every page below it. */
  lemma ActiveBelow(location: string, href: string, rest: string)
    requires IsActive(location, Some(href))
    ensures IsActive(location + "/" + rest, Some(href))
  {
    var l := location + "/" + rest;
    assert l[..|href| + 1] == (href + "/") by {
      if location == href {
        assert l == href + "/" + rest;
      } else {
        assert location[..|href| + 1] == l[..|href| + 1];
      }
    }
  }

  /** "/clients" is not active on "/clientsX": only a whole path segment counts. */
  lemma PrefixWithoutSlashInactive(href: string, c: char, rest: string)
    requires href != "" && c != '/'
    ensures !IsActive(href + [c] + rest, Some(href))
  {
    var l := href + [c] + rest;
    assert l[|href|] == c;
    assert (href + "/")[|href|] == '/';
  }

  function AnyActive(location: string, links: seq<NavItem>): (r: bool)
    ensures r <==> exists i :: 0 <= i < |links| && IsActive(location, links[i].href)
  {
    if links == [] then false
    else if IsActive(location, links[0].href) then true
    else
      var r := AnyActive(location, links[1..]);
      assert r ==> exists i :: 0 <= i < |links| && IsActive(location, links[i].href) by {
        if r {
          var i :| 0 <= i < |links[1..]| && IsActive(location, links[1..][i].href);
          assert links[i + 1] == links[1..][i];
        }
      }
      assert (exists i :: 0 <= i < |links| && IsActive(location, links[i].href)) ==> r by {
        if exists i :: 0 <= i < |links| && IsActive(location, links[i].href) {
          var i :| 0 <= i < |links| && IsActive(location, links[i].href);
          assert i != 0;
          assert links[1..][i - 1] == links[i];
        }
      }
      r
  }

  /** `hasActiveChild`: some child link is active; an item without children has none. */
  function HasActiveChild(location: string, item: NavItem): (r: bool)
    ensures r <==> item.children.Some? &&
                   exists i :: 0 <= i < |item.children.value| && IsActive(location, item.children.value[i].href)
  {
    item.children.Some? && AnyActive(location, item.children.value)
  }

  /** A receipt page highlights the Sales group and not the Accounting group. */
  lemma ReceiptPageInSales()
    ensures HasActiveChild("/receipts/42", Navigation[3])
    ensures !HasActiveChild("/receipts/42", Navigation[4])
  {
    assert IsActive("/receipts/42", Navigation[3].children.value[2].href);
    var links := Navigation[4].children.value;
    forall i | 0 <= i < |links|
      ensures !IsActive("/receipts/42", links[i].href)
    {
      MismatchInactive("/receipts/42", links[i].href.value, 1);
    }
  }

  /** A location that differs from the href inside the href's length is not below it. */
  lemma MismatchInactive(location: string, href: string, k: int)
    requires 0 <= k < |href| && k < |location| && location[k] != href[k]
    ensures !IsActive(location, Some(href))
  {
    assert (href + "/")[k] == href[k];
  }

  // ---------------------------------------------------------------- getInitials

  /** The non-empty pieces, in order. */
  function NonEmptyWords(pieces: seq<string>): (r: seq<string>)
    ensures |r| <= |pieces|
    ensures forall i :: 0 <= i < |r| ==> r[i] != ""
  {
    if pieces == [] then []
    else if pieces[0] == "" then NonEmptyWords(pieces[1..])
    else [pieces[0]] + NonEmptyWords(pieces[1..])
  }

  /** `pieces.map(n => n[0]).join("")`: an empty piece yields undefined, which joins as nothing. */
  function FirstChars(pieces: seq<string>): (r: string)
    ensures |r| == |NonEmptyWords(pieces)|
    ensures forall i :: 0 <= i < |r| ==> r[i] == NonEmptyWords(pieces)[i][0]
  {
    if pieces == [] then ""
    else (if pieces[0] == "" then "" else [pieces[0][0]]) + FirstChars(pieces[1..])
  }

  /**
   * `getInitials`: "U" for a missing or empty name; otherwise the upper-cased first letters
   * of the first two words (runs of spaces make empty words, which contribute nothing).
   */
  function Initials(name: Option<string>): (r: string)
    ensures name.None? || name.value == "" ==> r == "U"
    ensures name.Some? && name.value != "" ==>
              var w := NonEmptyWords(Split(name.value, ' '));
              |r| == (if |w| < 2 then |w| else 2) && forall i :: 0 <= i < |r| ==> r[i] == UpperChar(w[i][0])
  {
    if name.None? || name.value == "" then "U"
    else
      var s := Upper(FirstChars(Split(name.value, ' ')));
      if |s| <= 2 then s else s[..2]
  }

  /** "ada lovelace" gives "AL". */
  lemma TwoWordInitials(first: string, last: string)
    requires first != "" && last != "" && ' ' !in first && ' ' !in last
    ensures Initials(Some(first + " " + last)) == [UpperChar(first[0]), UpperChar(last[0])]
  {
    assert Join([first, last], [' ']) == first + " " + last;
    SplitJoin([first, last], ' ');
    assert NonEmptyWords([first, last]) == [first, last];
  }

  /** A name of spaces only is not empty, so it does not get "U": it gets no initials at all. */
  lemma BlankNameHasNoInitials()
    ensures Initials(Some(" ")) == ""
  {
    assert Split(" ", ' ') == ["", ""];
  }

  // ---------------------------------------------------------------- the layout state

  /** The Cmd+K / Ctrl+K shortcut. */
  predicate IsSidebarShortcut(metaKey: bool, ctrlKey: bool, key: string) {
    (metaKey || ctrlKey) && key == "k"
  }

  /** The sidebar flag after a key press. */
  function AfterKey(open: bool, metaKey: bool, ctrlKey: bool, key: string): (r: bool)
    ensures IsSidebarShortcut(metaKey, ctrlKey, key) ==> r == !open
    ensures !IsSidebarShortcut(metaKey, ctrlKey, key) ==> r == open
  {
    if IsSidebarShortcut(metaKey, ctrlKey, key) then !open else open
  }

  /** Pressing the shortcut twice leaves the sidebar as it was. */
  lemma ShortcutTwice(open: bool, metaKey: bool, ctrlKey: bool, key: string)
    ensures AfterKey(AfterKey(open, metaKey, ctrlKey, key), metaKey, ctrlKey, key) == open
  {
  }

  class Layout {
    var expandedItems: seq<string>
    var sidebarOpen: bool

    /** Expanded titles are distinct. */
    predicate Valid()
      reads this
    {
      NoDuplicates(expandedItems)
    }

    /** The saved sidebar flag is an input (missing: open). */
    constructor(saved: Option<bool>)
      ensures Valid()
      ensures expandedItems == [] && sidebarOpen == saved.GetOr(true)
    {
      expandedItems := [];
      sidebarOpen := saved.GetOr(true);
    }

    method ToggleExpanded(title: string)
      requires Valid()
      modifies this`expandedItems
      ensures Valid()
      ensures expandedItems == Toggled(old(expandedItems), title)
    {
      ToggledKeepsNoDuplicates(expandedItems, title);
      if title in expandedItems {
        expandedItems := Removed(expandedItems, title);
      } else {
        expandedItems := expandedItems + [title];
      }
    }

    /** The keydown handler: returns whether the event was taken (default prevented). */
    method HandleKeyDown(metaKey: bool, ctrlKey: bool, key: string) returns (handled: bool)
      modifies this`sidebarOpen
      ensures handled <==> IsSidebarShortcut(metaKey, ctrlKey, key)
      ensures sidebarOpen == AfterKey(old(sidebarOpen), metaKey, ctrlKey, key)
    {
      handled := (metaKey || ctrlKey) && key == "k";
      if handled {
        sidebarOpen := !sidebarOpen;
      }
    }
  }
}
