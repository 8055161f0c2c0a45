/**
 * scripts/batch-update-modules.py: a dry run of the migration of eleven page files from
 * DashboardLayout to ModuleLayout. For each page it checks that the file exists, skips a page
 * that already mentions ModuleLayout, computes the import substitution, the breadcrumb trail
 * and the "Add" action, and reports the page as needing a manual update. Nothing is written.
 * A page path that exists but cannot be opened raises out of the loop and ends the script.
 *
 * As written, line 62 of the replacement template opens a replacement field with `{<`, which
 * Python refuses when it compiles the script, so the script prints nothing at all
 * (AsWrittenPrintsNothing). The report is the behaviour of the script with that brace doubled
 * (IntendedTemplateAccepted, Run).
 */
module BatchUpdate {
  import opened Wrappers
  import opened Text
  import opened Breadcrumbs

  /** One row of the module table: (filename, icon, breadcrumb section, title, description). */
  datatype ModuleSpec = ModuleSpec(filename: string, icon: string, section: string, title: string, description: string)

  const Modules: seq<ModuleSpec> := [
    ModuleSpec("Receipts", "Receipt", "Sales", "Receipts", "Manage payment receipts and records"),
    ModuleSpec("Expenses", "TrendingDown", "Accounting", "Expenses", "Track and manage business expenses"),
    ModuleSpec("Departments", "Building2", "HR", "Departments", "Manage company departments"),
    ModuleSpec("Attendance", "Calendar", "HR", "Attendance", "Track employee attendance"),
    ModuleSpec("Payroll", "DollarSign", "HR", "Payroll", "Manage payroll and compensation"),
    ModuleSpec("LeaveManagement", "Calendar", "HR", "Leave Management", "Manage employee leave requests"),
    ModuleSpec("Reports", "BarChart3", "Reports", "Reports", "View analytics and reports"),
    ModuleSpec("Opportunities", "Target", "Sales", "Opportunities", "Manage sales opportunities"),
    ModuleSpec("BankReconciliation", "CreditCard", "Accounting", "Bank Reconciliation", "Reconcile bank statements"),
    ModuleSpec("ChartOfAccounts", "Layers", "Accounting", "Chart of Accounts", "Manage accounting structure"),
    ModuleSpec("Proposals", "FileText", "Sales", "Proposals", "Create and manage proposals")
  ]

  const BasePath: string := "/home/ubuntu/melitech_crm/client/src/pages"

  function FilePath(m: ModuleSpec): string {
    BasePath + "/" + m.filename + ".tsx"
  }

  const OldImport: string := "import DashboardLayout from \"@/components/DashboardLayout\";"
  const Marker: string := "ModuleLayout"
  const NewImport: string := "import { " + Marker + " } from \"@/components/ModuleLayout\";"

  /** The import substitution: every occurrence of the exact DashboardLayout import line. */
  function MigratedImports(content: string): string {
    ReplaceAll(content, OldImport, NewImport)
  }

  /** Content without the DashboardLayout import line is left exactly as it was. */
  lemma NoImportNoChange(content: string)
    requires !Contains(content, OldImport)
    ensures MigratedImports(content) == content
  {
    ReplaceAbsent(content, OldImport, NewImport);
  }

  /** A single import line is swapped for the ModuleLayout one and nothing around it changes. */
  lemma SingleImportReplaced(a: string, b: string)
    requires !Contains(a + OldImport[..|OldImport| - 1], OldImport) && !Contains(b, OldImport)
    ensures MigratedImports(a + OldImport + b) == a + NewImport + b
  {
    ReplaceOnce(a, OldImport, b, NewImport);
  }

  /** Content holding the new import line mentions ModuleLayout, so a page written back would be skipped next time. */
  lemma NewImportMarksMigrated(a: string, b: string)
    ensures Contains(a + NewImport + b, Marker)
  {
    var s := a + NewImport + b;
    var head := a + "import { ";
    assert |head| == |a| + 9;
    assert s == head + Marker + (" } from \"@/components/ModuleLayout\";" + b);
    assert s[|head|..|head| + |Marker|] == Marker;
    assert OccursAt(s, Marker, |a| + 9);
    ContainsIffOccurs(s, Marker);
  }

  /** The breadcrumb trail built from a module's section and title. */
  function SectionTrail(section: string, title: string): (r: seq<Crumb>)
    ensures |r| >= 1 && r[0] == Dashboard
    ensures section == "Sales" ==> r == [Dashboard, Crumb("Sales", Some("/sales")), Crumb(title, None)]
    ensures section == "Accounting" ==> r == [Dashboard, Crumb("Accounting", Some("/accounting")), Crumb(title, None)]
    ensures section == "HR" ==> r == [Dashboard, Crumb("HR", Some("/hr")), Crumb(title, None)]
    ensures section == "Reports" ==> r == [Dashboard, Crumb("Reports", None)]
    ensures section !in {"Sales", "Accounting", "HR", "Reports"} ==> r == [Dashboard, Crumb(title, None)]
  {
    if section == "Sales" then [Dashboard, Crumb("Sales", Some("/sales")), Crumb(title, None)]
    else if section == "Accounting" then [Dashboard, Crumb("Accounting", Some("/accounting")), Crumb(title, None)]
    else if section == "HR" then [Dashboard, Crumb("HR", Some("/hr")), Crumb(title, None)]
    else if section == "Reports" then [Dashboard, Crumb("Reports", None)]
    else [Dashboard, Crumb(title, None)]
  }

  /** Every trail but the Reports one ends with the page title, which is not a link. */
  lemma TrailEndsWithTitle(section: string, title: string)
    requires section != "Reports"
    ensures var r := SectionTrail(section, title); r[|r| - 1] == Crumb(title, None)
  {
  }

  /** The "Add" button: it navigates to "/<filename lowercased>/create". */
  function ActionHref(filename: string): (r: string)
    ensures |r| == |filename| + 8 && r[..1] == "/" && r[|r| - 7..] == "/create"
    ensures r[1..|r| - 7] == Lower(filename)
  {
    "/" + Lower(filename) + "/create"
  }

  function ActionLabel(title: string): string {
    "Add " + title
  }

  /** What the script works out for a page before it gives up on the return statement. */
  datatype Plan = Plan(content: string, trail: seq<Crumb>, actionHref: string, actionLabel: string)

  /**
   * A page path as the script finds it: a file it can read, or a path that exists but that
   * `open` refuses (a directory, or a file without read permission).
   */
  datatype PageFile = Readable(content: string) | Unreadable

  /** What the loop body does with one module; ReadFails raises out of `open`, which nothing catches. */
  datatype FileOutcome = NotFound | ReadFails | AlreadyMigrated | NeedsManualUpdate(plan: Plan)

  /** The outcome for one module, given the paths that exist. */
  function Outcome(files: map<string, PageFile>, m: ModuleSpec): (r: FileOutcome)
    ensures FilePath(m) !in files <==> r == NotFound
    ensures FilePath(m) in files && files[FilePath(m)].Unreadable? <==> r == ReadFails
    ensures FilePath(m) in files && files[FilePath(m)].Readable? && Contains(files[FilePath(m)].content, Marker)
            <==> r == AlreadyMigrated
    ensures r.NeedsManualUpdate? ==> r.plan.content == MigratedImports(files[FilePath(m)].content)
                                     && r.plan.trail == SectionTrail(m.section, m.title)
  {
    if FilePath(m) !in files then NotFound
    else
      match files[FilePath(m)]
      case Unreadable => ReadFails
      case Readable(content) =>
        if Contains(content, Marker) then AlreadyMigrated
        else NeedsManualUpdate(Plan(MigratedImports(content), SectionTrail(m.section, m.title),
                                    ActionHref(m.filename), ActionLabel(m.title)))
  }

  const Warning: string := "\U{26A0}\U{FE0F}  "
  const Tick: string := "\U{2713} "
  const Finished: string := "\n\U{2713} Batch update analysis complete"

  /** The line printed for a module whose file could be opened or was missing. */
  function ReportLine(m: ModuleSpec, o: FileOutcome): (line: string)
    requires !o.ReadFails?
    ensures o.NotFound? ==> line == Warning + m.filename + ".tsx not found"
    ensures o.AlreadyMigrated? ==> line == Tick + m.filename + ".tsx already uses ModuleLayout"
    ensures o.NeedsManualUpdate? ==> line == Warning + m.filename + ".tsx needs manual update (complex structure)"
  {
    match o
    case NotFound => Warning + m.filename + ".tsx not found"
    case AlreadyMigrated => Tick + m.filename + ".tsx already uses ModuleLayout"
    case NeedsManualUpdate(_) => Warning + m.filename + ".tsx needs manual update (complex structure)"
  }

  /**
   * What the loop prints: a line per module in table order and then the closing line, unless
   * a page cannot be opened, which ends the script with the lines printed so far.
   */
  function Report(files: map<string, PageFile>, modules: seq<ModuleSpec>): (lines: seq<string>)
    ensures |lines| <= |modules| + 1
  {
    if modules == [] then [Finished]
    else
      var o := Outcome(files, modules[0]);
      if o.ReadFails? then [] else [ReportLine(modules[0], o)] + Report(files, modules[1..])
  }

  /** With every page readable or missing, the report is one line per module, in order, then the closing line. */
  lemma {:induction false} ReportWhenReadable(files: map<string, PageFile>, modules: seq<ModuleSpec>)
    requires forall i :: 0 <= i < |modules| ==> !Outcome(files, modules[i]).ReadFails?
    ensures var lines := Report(files, modules);
            && |lines| == |modules| + 1 && lines[|modules|] == Finished
            && forall i :: 0 <= i < |modules| ==> lines[i] == ReportLine(modules[i], Outcome(files, modules[i]))
  {
    if modules != [] {
      assert forall i :: 0 <= i < |modules[1..]| ==> modules[1..][i] == modules[i + 1];
      ReportWhenReadable(files, modules[1..]);
    }
  }

  /** A page that cannot be opened stops the report: no line for it, none after it, no closing line. */
  lemma {:induction false} ReadFailureStopsReport(files: map<string, PageFile>, modules: seq<ModuleSpec>, k: nat)
    requires k < |modules| && Outcome(files, modules[k]).ReadFails?
    requires forall i :: 0 <= i < k ==> !Outcome(files, modules[i]).ReadFails?
    ensures |Report(files, modules)| == k && Finished !in Report(files, modules)
  {
    if k > 0 {
      assert forall i :: 0 <= i < k - 1 ==> modules[1..][i] == modules[i + 1];
      ReadFailureStopsReport(files, modules[1..], k - 1);
      ReportLineNotFinished(modules[0], Outcome(files, modules[0]));
    }
  }

  lemma ReportLineNotFinished(m: ModuleSpec, o: FileOutcome)
    requires !o.ReadFails?
    ensures ReportLine(m, o) != Finished
  {
    assert ReportLine(m, o)[0] != Finished[0];
  }

  /** One step of the report: the line for the module at i and the rest, or nothing once a page fails to open. */
  lemma ReportStep(files: map<string, PageFile>, modules: seq<ModuleSpec>, i: nat)
    requires i < |modules|
    ensures var o := Outcome(files, modules[i]);
            Report(files, modules[i..]) == if o.ReadFails? then [] else [ReportLine(modules[i], o)] + Report(files, modules[i + 1..])
  {
    assert modules[i..][0] == modules[i] && modules[i..][1..] == modules[i + 1..];
  }

  /**
   * The body of the loop for one module: the line it prints, or None when `open` fails and the
   * script stops.
   */
  method CheckPage(files: map<string, PageFile>, m: ModuleSpec) returns (line: Option<string>)
    ensures line.None? <==> Outcome(files, m).ReadFails?
    ensures line.Some? ==> line.value == ReportLine(m, Outcome(files, m))
  {
    var path := BasePath + "/" + m.filename + ".tsx";
    if path !in files {
      return Some(Warning + m.filename + ".tsx not found");
    }
    if files[path].Unreadable? {
      return None;
    }
    var content := files[path].content;
    if Contains(content, Marker) {
      return Some(Tick + m.filename + ".tsx already uses ModuleLayout");
    }
    // The script builds the migrated imports, the breadcrumb and the template here and then
    // discards them; Outcome's plan records them.
    return Some(Warning + m.filename + ".tsx needs manual update (complex structure)");
  }

  /**
   * The script's main loop, once the script compiles: the lines it prints, in order. The
   * files are only read.
   */
  method Run(files: map<string, PageFile>, modules: seq<ModuleSpec>) returns (lines: seq<string>)
    ensures lines == Report(files, modules)
  {
    lines := [];
    var i := 0;
    while i < |modules|
      invariant 0 <= i <= |modules|
      invariant Report(files, modules) == lines + Report(files, modules[i..])
    {
      ReportStep(files, modules, i);
      var line := CheckPage(files, modules[i]);
      if line.None? {
        return;
      }
      lines := lines + [line.value];
      i := i + 1;
    }
    assert modules[i..] == [];
    lines := lines + [Finished];
  }

  /** A page that is readable and not migrated is always reported as needing a manual update. */
  lemma UnmigratedPagesNeedManualUpdate(files: map<string, PageFile>, m: ModuleSpec)
    requires FilePath(m) in files && files[FilePath(m)].Readable? && !Contains(files[FilePath(m)].content, Marker)
    ensures ReportLine(m, Outcome(files, m)) == Warning + m.filename + ".tsx needs manual update (complex structure)"
  {
  }

  // ---------------------------------------------------------------- compiling the script

  /**
   * Python's reading of an f-string body, for the part of the syntax the script uses: `{{` and
   * `}}` stand for single braces, a single `}` is an error, and `{e}` is a replacement field
   * whose expression e is a name, an attribute or an argument-free method call. An expression
   * that starts with any other character, such as `<`, is an error.
   */
  predicate FStringAccepts(t: string)
    decreases |t|, 1
  {
    if t == [] then true
    else if t[0] == '{' then
      if |t| >= 2 && t[1] == '{' then FStringAccepts(t[2..]) else FieldAccepts(t[1..], false)
    else if t[0] == '}' then |t| >= 2 && t[1] == '}' && FStringAccepts(t[2..])
    else FStringAccepts(t[1..])
  }

  predicate IsNameStart(c: char) { 'a' <= c <= 'z' || 'A' <= c <= 'Z' || c == '_' }

  predicate IsExprChar(c: char) { IsNameStart(c) || '0' <= c <= '9' || c == '.' || c == '(' || c == ')' }

  /** The rest of a replacement field: the expression (begun when `started`), then `}` and the rest of the body. */
  predicate FieldAccepts(t: string, started: bool)
    decreases |t|, 0
  {
    if t == [] then false
    else if t[0] == '}' then started && FStringAccepts(t[1..])
    else if started then IsExprChar(t[0]) && FieldAccepts(t[1..], true)
    else IsNameStart(t[0]) && FieldAccepts(t[1..], true)
  }

  predicate NoBraces(s: string) { forall i :: 0 <= i < |s| ==> s[i] != '{' && s[i] != '}' }

  predicate IsFieldExpr(e: string) { |e| >= 1 && IsNameStart(e[0]) && forall i :: 0 <= i < |e| ==> IsExprChar(e[i]) }

  /** Template text with no brace in it. */
  type PlainText = s: string | NoBraces(s) witness ""

  /** The expression of a replacement field: a name, an attribute or an argument-free call. */
  type FieldExpr = e: string | IsFieldExpr(e) witness "x"

  /** A piece of the template as the script's source spells it. */
  datatype Piece = Literal(text: PlainText) | Field(expr: FieldExpr) | OpenBrace | CloseBrace

  /** The source text of a piece: a literal as is, `{e}`, and the escapes `{{` and `}}`. */
  function PieceText(p: Piece): string {
    match p
    case Literal(text) => text
    case Field(expr) => "{" + expr + "}"
    case OpenBrace => "{{"
    case CloseBrace => "}}"
  }

  function Spelled(ps: seq<Piece>): string {
    if ps == [] then "" else PieceText(ps[0]) + Spelled(ps[1..])
  }

  lemma {:induction false} SkipLiteral(a: string, b: string)
    requires NoBraces(a)
    ensures FStringAccepts(a + b) == FStringAccepts(b)
  {
    if a != [] {
      assert (a + b)[0] == a[0] && (a + b)[1..] == a[1..] + b;
      SkipLiteral(a[1..], b);
    } else {
      assert a + b == b;
    }
  }

  lemma {:induction false} SkipFieldRest(e: string, b: string)
    requires forall i :: 0 <= i < |e| ==> IsExprChar(e[i])
    ensures FieldAccepts(e + "}" + b, true) == FStringAccepts(b)
  {
    if e == [] {
      assert e + "}" + b == "}" + b;
      assert ("}" + b)[1..] == b;
    } else {
      assert (e + "}" + b)[0] == e[0] && (e + "}" + b)[1..] == e[1..] + "}" + b;
      SkipFieldRest(e[1..], b);
    }
  }

  /** A piece is read whole, and the text after it is read as if it stood alone. */
  lemma SkipPiece(p: Piece, b: string)
    ensures FStringAccepts(PieceText(p) + b) == FStringAccepts(b)
  {
    match p
    case Literal(text) =>
      SkipLiteral(text, b);
    case Field(expr) =>
      var t := "{" + expr + "}" + b;
      assert t[0] == '{' && t[1] == expr[0] && t[1..][0] == expr[0];
      assert t[1..][1..] == expr[1..] + "}" + b;
      SkipFieldRest(expr[1..], b);
    case OpenBrace =>
      assert ("{{" + b)[2..] == b;
    case CloseBrace =>
      assert ("}}" + b)[2..] == b;
  }

  /** Pieces spelled one after another are each read whole: the text after them decides. */
  lemma {:induction false} SkipPieces(ps: seq<Piece>, b: string)
    ensures FStringAccepts(Spelled(ps) + b) == FStringAccepts(b)
  {
    if ps == [] {
      assert Spelled(ps) + b == b;
    } else {
      SpelledFirst(ps, b);
      SkipPiece(ps[0], Spelled(ps[1..]) + b);
      SkipPieces(ps[1..], b);
    }
  }

  lemma SpelledFirst(ps: seq<Piece>, b: string)
    requires ps != []
    ensures Spelled(ps) + b == PieceText(ps[0]) + (Spelled(ps[1..]) + b)
  {
  }

  lemma {:induction false} SpelledConcat(ps: seq<Piece>, qs: seq<Piece>)
    ensures Spelled(ps + qs) == Spelled(ps) + Spelled(qs)
  {
    if ps == [] {
      assert ps + qs == qs;
    } else {
      assert (ps + qs)[0] == ps[0] && (ps + qs)[1..] == ps[1..] + qs;
      SpelledConcat(ps[1..], qs);
    }
  }

  /** Lines 58-60 of the replacement template. */
  const TitleLines: seq<Piece> := [
    Literal("return (\n"), Literal("    <ModuleLayout\n"), Literal("      title=\""), Field("title")
  ]

  /** Lines 60-62, up to the `icon=` attribute. */
  const DescriptionLine: seq<Piece> := [
    Literal("\"\n      description=\""), Field("description"), Literal("\"\n      icon=")
  ]

  /** Line 62, after the brace that opens the icon element. */
  const IconLine: seq<Piece> := [Literal("<"), Field("icon"), Literal(" className=\"w-6 h-6\" />"), CloseBrace]

  /** Line 63. */
  const BreadcrumbsLine: seq<Piece> := [Literal("\n      breadcrumbs="), OpenBrace, Field("breadcrumb"), CloseBrace]

  /** Lines 64-65, up to the button's click handler. */
  const ActionsOpen: seq<Piece> := [Literal("\n      actions="), OpenBrace, Literal("\n        <Button onClick="), OpenBrace]

  /** Line 65: the click handler. */
  const NavigateCall: seq<Piece> := [
    Literal("() => navigate(\"/"), Field("filename.lower()"), Literal("/create\")"), CloseBrace, CloseBrace
  ]

  /** Lines 65-67: the button's content. */
  const ButtonLines: seq<Piece> := [
    Literal(">\n          <Plus "), Literal("className=\"mr-2 h-4 w-4\" />\n"), Literal("          Add "), Field("title")
  ]

  /** Lines 67-71: the end of the actions and the opening of the page body. */
  const BodyLines: seq<Piece> := [
    Literal("\n        </Button>\n      "), CloseBrace, Literal("\n    >\n      <div "), Literal("className=\"space-y-6\">")
  ]

  /** Lines 58-62 of the replacement template, up to the `icon=` attribute. */
  function TemplateHead(): seq<Piece> { TitleLines + DescriptionLine }

  /** Lines 62-71 of the replacement template, after the brace that opens the icon element. */
  function TemplateTail(): seq<Piece> {
    IconLine + (BreadcrumbsLine + ActionsOpen + NavigateCall + ButtonLines + BodyLines)
  }

  /** The template as written: line 62 opens the icon element with a single `{`. */
  function AsWrittenTemplate(): string {
    Spelled(TemplateHead()) + "{" + Spelled(TemplateTail())
  }

  /** The template as evidently intended: the brace doubled, so that it stands for itself. */
  function IntendedTemplate(): string {
    Spelled(TemplateHead() + [OpenBrace] + TemplateTail())
  }

  /** What running the script prints: nothing when Python cannot compile it, otherwise the report. */
  function ScriptOutput(template: string, files: map<string, PageFile>, modules: seq<ModuleSpec>): seq<string> {
    if FStringAccepts(template) then Report(files, modules) else []
  }

  /** Any template spelled from pieces is a valid f-string. */
  lemma PiecesAccepted(ps: seq<Piece>)
    ensures FStringAccepts(Spelled(ps))
  {
    SkipPieces(ps, "");
    assert Spelled(ps) + "" == Spelled(ps);
  }

  /** A single `{` followed by pieces that start with `<` opens a field whose expression cannot start. */
  lemma AngleAfterSingleBraceRejected(head: seq<Piece>, tail: seq<Piece>)
    requires tail != [] && tail[0] == Literal("<")
    ensures !FStringAccepts(Spelled(head) + "{" + Spelled(tail))
  {
    var t := "{" + Spelled(tail);
    assert Spelled(head) + "{" + Spelled(tail) == Spelled(head) + t;
    SkipPieces(head, t);
    assert Spelled(tail) == "<" + Spelled(tail[1..]);
    assert t[0] == '{' && t[1] == '<' && t[1..] == Spelled(tail);
  }

  /** As written, the field opened on line 62 starts with `<`, which is no expression: Python refuses the template. */
  lemma AsWrittenRejected()
    ensures !FStringAccepts(AsWrittenTemplate())
  {
    assert TemplateTail()[0] == IconLine[0] == Literal("<");
    AngleAfterSingleBraceRejected(TemplateHead(), TemplateTail());
  }

  /**
   * So the script as written prints nothing at all, where the intended report prints at least
   * the closing line whenever every page can be opened.
   */
  lemma AsWrittenPrintsNothing(files: map<string, PageFile>, modules: seq<ModuleSpec>)
    ensures ScriptOutput(AsWrittenTemplate(), files, modules) == []
    ensures (forall i :: 0 <= i < |modules| ==> !Outcome(files, modules[i]).ReadFails?) ==>
              ScriptOutput(AsWrittenTemplate(), files, modules) != Report(files, modules)
  {
    AsWrittenRejected();
    if forall i :: 0 <= i < |modules| ==> !Outcome(files, modules[i]).ReadFails? {
      ReportWhenReadable(files, modules);
    }
  }

  /** With the brace doubled, Python accepts the template and the script prints the report Run computes. */
  lemma IntendedTemplateAccepted(files: map<string, PageFile>, modules: seq<ModuleSpec>)
    ensures FStringAccepts(IntendedTemplate())
    ensures ScriptOutput(IntendedTemplate(), files, modules) == Report(files, modules)
  {
    PiecesAccepted(TemplateHead() + [OpenBrace] + TemplateTail());
  }
}
