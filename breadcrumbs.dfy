/**
 * client/src/components/Breadcrumbs.tsx: the trail of links shown above a page. The trail is
 * the one the page passes in, else the one registered for the current route, else the
 * dashboard link alone.
 */
module Breadcrumbs {
  import opened Wrappers

  /** A breadcrumb: a label, with a link target when it is clickable. */
  datatype Crumb = Crumb(text: string, href: Option<string>)

  const Dashboard: Crumb := Crumb("Dashboard", Some("/"))

  /** `breadcrumbMap`: the trail registered for each route. */
  const BreadcrumbMap: map<string, seq<Crumb>> :=
    map[
      "/" := [Dashboard],
      "/dashboard" := [Dashboard],
      "/clients" := [Dashboard, Crumb("Clients", Some("/clients"))],
      "/projects" := [Dashboard, Crumb("Projects", Some("/projects"))],
      "/invoices" := [Dashboard, Crumb("Accounting", Some("/accounting")), Crumb("Invoices", Some("/invoices"))],
      "/estimates" := [Dashboard, Crumb("Sales", Some("/sales")), Crumb("Estimates", Some("/estimates"))],
      "/receipts" := [Dashboard, Crumb("Sales", Some("/sales")), Crumb("Receipts", Some("/receipts"))],
      "/payments" := [Dashboard, Crumb("Accounting", Some("/accounting")), Crumb("Payments", Some("/payments"))],
      "/expenses" := [Dashboard, Crumb("Accounting", Some("/accounting")), Crumb("Expenses", Some("/expenses"))],
      "/products" := [Dashboard, Crumb("Products & Services", Some("/products")), Crumb("Products", Some("/products"))],
      "/services" := [Dashboard, Crumb("Products & Services", Some("/services")), Crumb("Services", Some("/services"))],
      "/employees" := [Dashboard, Crumb("HR", Some("/hr")), Crumb("Employees", Some("/employees"))],
      "/departments" := [Dashboard, Crumb("HR", Some("/hr")), Crumb("Departments", Some("/departments"))],
      "/attendance" := [Dashboard, Crumb("HR", Some("/hr")), Crumb("Attendance", Some("/attendance"))],
      "/payroll" := [Dashboard, Crumb("HR", Some("/hr")), Crumb("Payroll", Some("/payroll"))],
      "/leave" := [Dashboard, Crumb("HR", Some("/hr")), Crumb("Leave Management", Some("/leave"))],
      "/reports" := [Dashboard, Crumb("Reports", Some("/reports"))],
      "/accounting" := [Dashboard, Crumb("Accounting", Some("/accounting"))],
      "/opportunities" := [Dashboard, Crumb("Sales", Some("/sales")), Crumb("Opportunities", Some("/opportunities"))],
      "/bank-reconciliation" := [Dashboard, Crumb("Accounting", Some("/accounting")), Crumb("Bank Reconciliation", Some("/bank-reconciliation"))],
      "/chart-of-accounts" := [Dashboard, Crumb("Accounting", Some("/accounting")), Crumb("Chart of Accounts", Some("/chart-of-accounts"))]
    ]

  /** Every registered trail is non-empty and starts at the dashboard. */
  lemma MapTrailsStartAtDashboard()
    ensures forall loc :: loc in BreadcrumbMap ==> |BreadcrumbMap[loc]| >= 1 && BreadcrumbMap[loc][0] == Dashboard
  {
  }

  /**
   * `items || breadcrumbMap[location] || [Dashboard]`. An items array, even an empty one, is
   * truthy in JavaScript, so a passed array always wins.
   */
  function SelectTrail(items: Option<seq<Crumb>>, location: string): (r: seq<Crumb>)
    ensures items.Some? ==> r == items.value
    ensures items.None? && location in BreadcrumbMap ==> r == BreadcrumbMap[location]
    ensures items.None? && location !in BreadcrumbMap ==> r == [Dashboard]
  {
    match items
    case Some(given) => given
    case None => if location in BreadcrumbMap then BreadcrumbMap[location] else [Dashboard]
  }

  /** Without passed items, the trail shown is never empty and starts at the dashboard. */
  lemma DefaultTrailStartsAtDashboard(location: string)
    ensures var r := SelectTrail(None, location); |r| >= 1 && r[0] == Dashboard
  {
    MapTrailsStartAtDashboard();
  }

  /** What the trail renders to: separators, clickable buttons and plain labels. */
  datatype Piece = Separator | Button(text: string, target: string) | Plain(text: string)

  /** A crumb with a non-empty href is a button; one without (or with "") is plain text. */
  function PieceOf(c: Crumb): (p: Piece)
    ensures p.Button? <==> c.href.Some? && c.href.value != ""
    ensures p.Button? ==> p == Button(c.text, c.href.value)
    ensures !p.Button? ==> p == Plain(c.text)
  {
    if c.href.Some? && c.href.value != "" then Button(c.text, c.href.value) else Plain(c.text)
  }

  /** The rendered trail: each crumb's piece, with a separator before every crumb but the first. */
  function Rendered(trail: seq<Crumb>): (r: seq<Piece>)
    ensures |r| == if trail == [] then 0 else 2 * |trail| - 1
    ensures forall i :: 0 <= i < |trail| ==> r[2 * i] == PieceOf(trail[i])
    ensures forall i :: 0 < i < |trail| ==> r[2 * i - 1] == Separator
  {
    if trail == [] then []
    else
      var front := Rendered(trail[..|trail| - 1]);
      var r := front + (if |trail| > 1 then [Separator] else []) + [PieceOf(trail[|trail| - 1])];
      assert forall i :: 0 <= i < |trail| - 1 ==> trail[..|trail| - 1][i] == trail[i];
      r
  }

  /** Separators sit exactly at the odd positions, between two crumbs; every even position is a crumb. */
  lemma SeparatorsOnlyBetween(trail: seq<Crumb>, j: int)
    requires 0 <= j < |Rendered(trail)|
    ensures Rendered(trail)[j] == Separator <==> j % 2 == 1
  {
    var r := Rendered(trail);
    if j % 2 == 0 {
      assert r[2 * (j / 2)] == PieceOf(trail[j / 2]);
    } else {
      assert r[2 * ((j + 1) / 2) - 1] == Separator;
    }
  }
}
