# CRM core, modelled in Dafny

The system is a small CRM (customer relationship manager). It has a React front end and a
tRPC/MySQL server. This project models the parts of it that keep or change state:

- **Settings store** (`server/db.ts`). It holds key/value settings, per-type document number
  counters ("INV-000042"), per-type number formats, default settings and role permissions.
- **User store** (`server/db-users.ts`). It holds users, permission checks, staff tasks and
  project comments. The role gates and access rules are in `server/routers/users.ts`.
- **Activity log** (`client/src/lib/activityLog.ts`). It is a bounded list of audit entries
  with filters and a CSV export.
- **Page state.** The document editor (line items and totals), the receipts page (filters,
  sorting, selection), the employees page, the security and reset-password pages, the number
  formatting settings card, the dashboard sidebar, the breadcrumbs and the UI settings reducer.
- **Actions** (`client/src/lib/actions.ts`). These are the shared view/edit/email helpers and
  the document and e-mail templates.
- **Migration script** (`scripts/batch-update-modules.py`). Its intended behaviour is to
  check each module page for the new layout and report the pages that still need a manual
  update, writing no file. A page path that exists but cannot be opened ends the run. As
  written, Python refuses to compile the script: line 62 of its replacement template opens a
  replacement field with `{<` where `{{<` was meant. So it prints nothing (see "## Findings").
  The model states both the as-written and the intended behaviour.

There is one Dafny module per source file. Two more modules are shared:

- `Wrappers` holds `Option`.
- `Text` holds the JavaScript string operations the source relies on: `parseInt(s, 10)`,
  `String(n)`, `padStart`, `split`/`join`, ASCII case mapping, UTF-16 length, and
  Python's `str.replace`.

The tables of both server files live in one class, `Schema.Database`. Database ids come from
its `tick` counter, not from the clock and a random number. Each React page becomes a class
whose fields are the page's `useState` values. Each handler becomes a method that states the
page's new state. Pure helpers become functions, and lemmas relate them to each other.

## Model

| member | source | states |
|---|---|---|
| Db.Upsert | server/db.ts:560-602 | the key is present afterwards with the new value, and no other key appears. An existing row keeps its id, and keeps its category and description where the new ones are not given. A new key gets a row with the fresh id. Every other key keeps its row |
| Db.UpsertIdempotent | server/db.ts:560-602 | writing the same setting twice gives the same table as writing it once |
| Db.SetSetting | server/db.ts:560-602 | the stored table becomes the upsert of the old one. The returned id is the existing row's id, or the fresh id for a new key. The id counter moves on by one |
| Db.DefaultPrefix | server/db.ts:644-654 | the result is "DOC-" exactly when the type is not one of invoice, estimate, receipt, proposal and expense. Every prefix ends in "-" |
| Db.CounterValueOfInt | server/db.ts:632-633 | a counter stored as the decimal text of a number reads back as that number |
| Db.CounterDefaultsToOne | server/db.ts:626-633 | with no `<type>_next` setting, the next number is 1 |
| Db.CounterWithoutDigitsIsOne | server/db.ts:629-633 | a `<type>_next` text without any digit (empty or not) also gives 1 |
| Db.LegacyNumberShape | server/db.ts:636 | a legacy number is the prefix and then the counter zero-padded to six digits. A longer counter appears in full, and the digits after the prefix read back as the counter |
| Db.CounterAfterStore | server/db.ts:639 | once the counter is stored as the text of k, the next number issued uses k |
| Db.IssueAdvancesCounter | server/db.ts:632-639 | issuing a number moves the type's counter from n to n + 1 |
| Db.SuffixKeysDiffer | server/db.ts:621-622 | a `_next` key never equals a `_prefix` key, and different types have different `_next` keys |
| Db.StoreKeepsOtherCounters | server/db.ts:617-642 | storing one type's counter leaves every other type's counter as it was |
| Db.StoreKeepsPrefixes | server/db.ts:617-642 | storing a counter never changes any type's prefix |
| Db.IssueListsCounter | server/db.ts:670-682 | after a counter is stored, the numbering settings list it with the stored text |
| Db.LegacyNumbersDistinct | server/db.ts:636 | under one prefix, different counters give different legacy numbers |
| Db.LegacyNumberAfterIssue | server/db.ts:617-642 | after an issue, the next legacy number has the same prefix and the next counter |
| Db.SuccessiveLegacyNumbersDiffer | server/db.ts:617-642 | two numbers issued one after the other for the same type differ, for any counter that is not negative |
| Db.GetNextDocumentNumber | server/db.ts:617-642 | returns the legacy number for the current counter. The stored table becomes the one with the counter plus one, and the id counter moves on by one |
| Db.ResetDocumentNumberCounter | server/db.ts:659-665 | stores the start number (1 when none is given) as the type's `_next` setting in the numbering category |
| Db.GetDocumentNumberingSettings | server/db.ts:670-682 | lists exactly the settings of the `document_numbering` category, each with its stored value |
| Db.FormatExampleShape | server/db.ts:790-793 | a formatted number is the prefix and separator (both left out when the prefix is empty), then the counter padded to the width. The digits read back as the counter |
| Db.FormatExampleInjective | server/db.ts:790-793 | under one format, different counters give different numbers |
| Db.SuccessiveFormattedNumbersDiffer | server/db.ts:758-788 | the number issued after an issue differs from the one before it |
| Db.MergeFormat | server/db.ts:723-734 | a given prefix, padding or separator replaces the stored one, and a field not given is kept. The id, type, counter, active flag and stored example do not change |
| Db.NewFormat | server/db.ts:735-748 | a new format gets the given id, is active and starts at counter 1. The prefix is the given one, or empty. A given non-zero padding is used, and a missing or zero one becomes 6. A given non-empty separator is used, and a missing or empty one becomes "-". Its example is the number it issues first |
| Db.UpdateDocumentNumberFormat | server/db.ts:709-756 | an existing format is merged and its id returned. Otherwise a new format is stored under a fresh id, which is returned. Other types' formats are kept |
| Db.IssueFormattedNumber | server/db.ts:769-787 | returns the format's current number, and stores the format with its counter advanced past it |
| Db.GetNextDocumentNumberWithFormat | server/db.ts:758-788 | with a format, returns the formatted number, advances that format, and leaves the settings alone. Without one, it issues a legacy number and leaves the formats alone |
| Db.ResetDocumentNumberFormatCounter | server/db.ts:795-806 | an existing format gets the start number (1 when none is given) as its counter, and nothing else changes. A type without a format is left without one |
| Db.FindDefault | server/db.ts:880-881 | finds nothing exactly when no default row has the key. Otherwise it returns the first row with the key |
| Db.ResetSettingToDefault | server/db.ts:875-887 | a key without a default changes nothing. Otherwise the key is set to its first default's value, in the default's category, and the id counter moves on by one |
| Db.CategoryDefaults | server/db.ts:826-835 | a default row is listed exactly when it belongs to the category |
| Db.ApplyDefaultsRestores | server/db.ts:889-900 | after the reset, every default with a non-empty value is stored, and every key with no default keeps its row |
| Db.ResetOneDefault | server/db.ts:895-899 | one loop step stores the default when its value is non-empty and otherwise changes nothing |
| Db.ResetCategoryToDefaults | server/db.ts:889-900 | the settings become the result of applying the category's defaults in order |
| Db.AssignLink | server/db.ts:941-969 | afterwards the role has the permission, under the returned id. An existing link is returned unchanged. A new link gets the fresh id and is the only key added. Every old link keeps its id |
| Db.AssignIdempotent | server/db.ts:941-969 | assigning the same permission twice gives the same links and id as assigning it once |
| Db.RemoveUndoesAssign | server/db.ts:971-983 | removing a link that was just assigned restores the links it was added to |
| Db.AssignPermissionToRole | server/db.ts:941-969 | the stored links and the returned id are those of the assignment. The id counter moves on by one exactly when a new link is stored |
| Db.RemovePermissionFromRole | server/db.ts:971-983 | the stored links lose exactly that role/permission pair |
| Db.ApplyPatch | server/db.ts:163-169 | each of name, e-mail, login method, role and last sign-in that is given replaces the stored value, `null` included. Each one not given keeps its value. The id, department, active flag, client and permissions are kept, and an empty patch changes nothing |
| Db.UpdateUser | server/db.ts:155-179 | an empty patch or an unknown id changes nothing. Otherwise only the user with that id changes, by the patch |
| DbUsers.InitialUser | server/db-users.ts:81-91 | a new user has the given fields. The role is "user" when none is given, the user is active unless told otherwise, and has not signed in yet |
| DbUsers.CreateUser | server/db-users.ts:76-100 | an id in use changes nothing and returns nothing. A fresh id adds the new user and returns it |
| DbUsers.ApplyUpdate | server/db-users.ts:110-118 | each given field replaces the stored one, `null` included for the nullable columns, and each field not given is kept. The id, login method and last sign-in never change |
| DbUsers.ApplyUpdateProperties | server/db-users.ts:110-123 | an empty update changes nothing, and applying the same update twice equals applying it once |
| DbUsers.UpdateUser | server/db-users.ts:105-132 | an empty update or an unknown id changes nothing. Otherwise only that user is updated, with given `null` fields copied as `null`. The result is the user as now stored, or nothing for an unknown id |
| DbUsers.DeleteUser | server/db-users.ts:137-149 | a delete is soft: the user stays, marked inactive, and every other user is kept. It always reports success |
| DbUsers.UserHasPermission | server/db-users.ts:402-430 | true exactly when the user exists and either has an admin role or has a stored permissions array that lists the name |
| DbUsers.DeleteKeepsPermissions | server/db-users.ts:402-430 | a soft-deleted user keeps every permission they had, because the check ignores the active flag |
| DbUsers.UnparsablePermissionsDeny | server/db-users.ts:415-425 | a non-admin whose permissions are missing, unparsable or not an array has no permission |
| DbUsers.UpdateGrantsListedPermission | server/db-users.ts:402-430 | after an update stores a permissions array listing the name, the user has that permission |
| DbUsers.CreateStaffTask | server/db-users.ts:282-314 | stores and returns a task with a fresh id and the given title, description, department, assignee, creator and due date. It starts as "todo", uncompleted, with priority "medium" when none is given. The id counter moves on by one |
| DbUsers.WithStatus | server/db-users.ts:365-368 | a staff task gets the status. Completing it stamps the time, any other status keeps the old completion time, and nothing else changes |
| DbUsers.ReopenKeepsCompletionDate | server/db-users.ts:357-376 | reopening a completed task keeps its completion time |
| DbUsers.UpdateTaskStatus | server/db-users.ts:357-376 | only the staff task with that id gets the new status; an unknown id changes nothing |
| DbUsers.AddProjectComment | server/db-users.ts:225-252 | stores a comment with a fresh id and the given fields, in front of the older ones. Its type is "remark" and it is public when the caller gives neither |
| DbUsers.ProjectComments | server/db-users.ts:257-277 | lists exactly the project's comments, only the public ones unless private ones are asked for |
| DbUsers.ProjectCommentsConcat | server/db-users.ts:257-277 | the listing of two joined comment lists is the listing of each, joined, and a single comment is listed exactly when it belongs to the project and is visible. So the listing keeps the stored order and every copy |
| DbUsers.PublicCommentsAreSubsequence | server/db-users.ts:257-277 | the public listing is the full listing with its private comments dropped, in the same order. So it is never longer, and equals the full listing when no comment is private |
| UsersRouter.AdminGate | server/routers/users.ts:12-20 | passes exactly the admin and super_admin roles |
| UsersRouter.ClientGate | server/routers/users.ts:22-30 | passes exactly the client role; admins are refused |
| UsersRouter.StaffGate | server/routers/users.ts:32-40 | passes exactly staff, admin and super_admin |
| UsersRouter.AccountantGate | server/routers/users.ts:42-50 | passes exactly accountant, admin and super_admin |
| UsersRouter.GateOrdering | server/routers/users.ts:12-50 | whoever passes the admin gate passes the staff and accountant gates. Whoever passes both of those is an admin. A client passes no other gate |
| UsersRouter.DepartmentAccess | server/routers/users.ts:194-206 | allowed exactly for staff, admin and super_admin, and for staff only when their own row names that department |
| UsersRouter.StaffSeesOnlyOwnDepartment | server/routers/users.ts:194-206 | a staff member reaches only one department, their own |
| UsersRouter.VisibleComments | server/routers/users.ts:271-276 | a client sees exactly the project's public comments; other roles see all the project's comments |
| UsersRouter.ClientSeesOnlyPublic | server/routers/users.ts:271-276 | a comment of the project is shown exactly when the caller is not a client or the comment is public |
| UsersRouter.AssignmentRole | server/routers/users.ts:281-292 | the project role is the given one, or "developer" |
| UsersRouter.TaskPriority | server/routers/users.ts:316-333 | a new staff task's priority is the given one, or "medium" |
| ActivityLog.Stamp | client/src/lib/activityLog.ts:22-31 | an entry keeps every field of the activity, and adds the id "log_" plus the clock time and the ISO timestamp |
| ActivityLog.AppendedBounded | client/src/lib/activityLog.ts:31-36 | the new entry is last. Under 1000 entries it is simply appended; at 1000 the oldest is dropped, so the log never grows past 1000 |
| ActivityLog.Matching | client/src/lib/activityLog.ts:57-73 | an entry is kept exactly when it is in the log and its field has the value |
| ActivityLog.MatchingConcat | client/src/lib/activityLog.ts:57-73 | filtering two logs joined equals joining their filtered logs |
| ActivityLog.MatchingAfterAppend | client/src/lib/activityLog.ts:22-73 | below the bound, the filtered log after an append is the old filtered log plus the new entry when it matches |
| ActivityLog.DeleteActivity | client/src/lib/activityLog.ts:85-99 | a delete activity names the module and item, says "Deleted <module> item: <name>", and falls back to "current-user" |
| ActivityLog.CreateActivity | client/src/lib/activityLog.ts:104-118 | a create activity names the module and item, says "Created <module> item: <name>", and falls back to "current-user" |
| ActivityLog.UpdateActivity | client/src/lib/activityLog.ts:123-139 | an update activity names the module and item, says "Updated <module> item: <name>", and carries the changes as metadata |
| ActivityLog.Quoted | client/src/lib/activityLog.ts:161 | the cell is wrapped in one double quote on each side and is otherwise unchanged |
| ActivityLog.CsvLineStructure | client/src/lib/activityLog.ts:144-165 | when no cell holds a newline, the export splits back into the header and one row per entry, in log order |
| ActivityLog.ActivityStore.constructor | client/src/lib/activityLog.ts:45-52 | a new store has nothing saved |
| ActivityLog.ActivityStore.Logs | client/src/lib/activityLog.ts:45-52 | the saved log, or no entries when nothing is saved or the saved text does not parse |
| ActivityLog.ActivityStore.ModuleLogs | client/src/lib/activityLog.ts:57-59 | exactly the saved entries of the module |
| ActivityLog.ActivityStore.ItemLogs | client/src/lib/activityLog.ts:64-66 | exactly the saved entries of the item |
| ActivityLog.ActivityStore.UserLogs | client/src/lib/activityLog.ts:71-73 | exactly the saved entries of the user |
| ActivityLog.ActivityStore.LogActivity | client/src/lib/activityLog.ts:22-40 | returns the stamped entry and saves the bounded append. The entry is last, and a log within 1000 stays within 1000 |
| ActivityLog.ActivityStore.ClearActivityLogs | client/src/lib/activityLog.ts:78-80 | the saved log is removed and no entries remain |
| ActivityLog.ActivityStore.LogDelete | client/src/lib/activityLog.ts:85-99 | saves and returns the stamped delete activity |
| ActivityLog.ActivityStore.LogCreate | client/src/lib/activityLog.ts:104-118 | saves and returns the stamped create activity |
| ActivityLog.ActivityStore.LogUpdate | client/src/lib/activityLog.ts:123-139 | saves and returns the stamped update activity |
| ActivityLog.ActivityStore.ExportCsv | client/src/lib/activityLog.ts:144-165 | the CSV text of the saved log |
| DocumentForm.DocumentTitle | client/src/components/forms/DocumentForm.tsx:169 | an invoice is titled INVOICE, an estimate QUOTATION and a receipt RECEIPT |
| DocumentForm.LineTotal | client/src/components/forms/DocumentForm.tsx:68-72 | a line total is quantity times unit price plus the line's tax percentage of it; with no tax it is quantity times price |
| DocumentForm.Vat | client/src/components/forms/DocumentForm.tsx:77 | VAT is 0 when it does not apply, and otherwise the percentage of the subtotal |
| DocumentForm.GrandTotal | client/src/components/forms/DocumentForm.tsx:75-80 | the grand total is the subtotal, raised by the VAT percentage when VAT applies |
| DocumentForm.SubtotalOnlyPrices | client/src/components/forms/DocumentForm.tsx:76 | two lists with the same quantities and prices have the same subtotal, whatever their line taxes and totals |
| DocumentForm.InitialItems | client/src/components/forms/DocumentForm.tsx:63-65 | the editor starts with one line, id "1" and number 1. Its totals are consistent and the subtotal is 0 |
| DocumentForm.Added | client/src/components/forms/DocumentForm.tsx:83-95 | the old lines are kept and an empty line numbered one past the count is appended. Numbering, line totals and subtotal are kept |
| DocumentForm.Without | client/src/components/forms/DocumentForm.tsx:103 | a line remains exactly when it was there and has another id |
| DocumentForm.WithoutConcat | client/src/components/forms/DocumentForm.tsx:103 | dropping an id from two joined lists drops it from each, and a single line stays exactly when its id differs. So the kept lines keep their order and every copy |
| DocumentForm.Renumbered | client/src/components/forms/DocumentForm.tsx:104 | each line keeps its place and gets its position as number |
| DocumentForm.Removed | client/src/components/forms/DocumentForm.tsx:98-106 | the last remaining line is never removed. Otherwise the lines with that id go and the rest are renumbered |
| DocumentForm.RemoveUndoesAdd | client/src/components/forms/DocumentForm.tsx:83-106 | removing the line just added restores a numbered list |
| DocumentForm.Edited | client/src/components/forms/DocumentForm.tsx:111-117 | the edited field takes the new value and every other field is kept. The id and number never change. A quantity, price or tax edit also recomputes the total from the new values; a description or unit edit leaves the total |
| DocumentForm.Updated | client/src/components/forms/DocumentForm.tsx:109-121 | exactly the lines with that id are edited, in place, and the numbering is kept |
| DocumentForm.UpdatedKeepsTotals | client/src/components/forms/DocumentForm.tsx:109-121 | an edit keeps every line total equal to its computed value |
| DocumentForm.UpdatedKeepsSubtotal | client/src/components/forms/DocumentForm.tsx:109-121 | a tax, description or unit edit leaves the subtotal unchanged |
| DocumentForm.RenumberKeepsSubtotal | client/src/components/forms/DocumentForm.tsx:103-105 | renumbering leaves the subtotal unchanged |
| DocumentForm.Editor.constructor | client/src/components/forms/DocumentForm.tsx:63-65 | the editor holds the initial line, and the remove callback sees that list |
| DocumentForm.Editor.Totals | client/src/components/forms/DocumentForm.tsx:75-80 | the subtotal of the lines, its VAT, and their sum |
| DocumentForm.Editor.Render | client/src/components/forms/DocumentForm.tsx:106 | the remove callback is rebuilt, seeing the current lines, only when the line count changed |
| DocumentForm.Editor.AddLineItem | client/src/components/forms/DocumentForm.tsx:83-95 | the lines become the added list, and the new count rebuilds the remove callback |
| DocumentForm.Editor.RemoveLineItemAsWritten | client/src/components/forms/DocumentForm.tsx:98-106 | the callback removes from the list it saw when last rebuilt, and refuses when that list had one line. It is rebuilt only when the number of lines changed, and the editor stays valid |
| DocumentForm.Editor.RemoveLineItem | client/src/components/forms/DocumentForm.tsx:98-106 | removal works on the current list and refuses only when one line is left. The remove callback is rebuilt exactly when the number of lines changed, and the editor stays valid |
| DocumentForm.Editor.UpdateLineItem | client/src/components/forms/DocumentForm.tsx:109-121 | the lines become the updated list and the remove callback is not rebuilt |
| DocumentForm.StaleRemoveLosesEdit | client/src/components/forms/DocumentForm.tsx:98-106 | after an add, a quantity edit and a remove through the stale callback, line "1" is back to quantity 1 instead of 5 |
| Breadcrumbs.MapTrailsStartAtDashboard | client/src/components/Breadcrumbs.tsx:16-110 | every trail in the route map starts at Dashboard |
| Breadcrumbs.SelectTrail | client/src/components/Breadcrumbs.tsx:117 | given items win. Otherwise a mapped route gets its trail, and any other route gets the Dashboard trail alone |
| Breadcrumbs.DefaultTrailStartsAtDashboard | client/src/components/Breadcrumbs.tsx:117 | without given items, every route's trail starts at Dashboard |
| Breadcrumbs.PieceOf | client/src/components/Breadcrumbs.tsx:126-135 | an item with a non-empty link is a button to it, and any other item is plain text |
| Breadcrumbs.Rendered | client/src/components/Breadcrumbs.tsx:121-137 | one piece per item, in order, with a separator between every two neighbours and nowhere else |
| Breadcrumbs.SeparatorsOnlyBetween | client/src/components/Breadcrumbs.tsx:123-125 | a rendered position holds a separator exactly when it is odd |
| BatchUpdate.NoImportNoChange | scripts/batch-update-modules.py:37-41 | a page without the old import is left as it is |
| BatchUpdate.SingleImportReplaced | scripts/batch-update-modules.py:37-41 | a page with the old import once gets the new import there and is otherwise kept |
| BatchUpdate.NewImportMarksMigrated | scripts/batch-update-modules.py:32-41 | a page holding the new import counts as already migrated |
| BatchUpdate.SectionTrail | scripts/batch-update-modules.py:43-53 | Sales, Accounting and HR pages get Dashboard, the section and the title. Reports gets Dashboard and Reports. Any other page gets Dashboard and the title |
| BatchUpdate.TrailEndsWithTitle | scripts/batch-update-modules.py:44-53 | outside Reports, the trail ends with the page title |
| BatchUpdate.ActionHref | scripts/batch-update-modules.py:65 | the action link is "/", the lower-cased file name and "/create" |
| BatchUpdate.Outcome | scripts/batch-update-modules.py:22-53 | a page is not found exactly when its file is missing, fails exactly when its path exists but cannot be opened, and is already migrated exactly when it opens and mentions the new layout. Otherwise the planned import and trail are computed |
| BatchUpdate.ReportLine | scripts/batch-update-modules.py:25-35 | each outcome prints its own warning or tick line with the file name |
| BatchUpdate.Report | scripts/batch-update-modules.py:22-76 | the report never has more lines than the modules plus the closing line |
| BatchUpdate.ReportWhenReadable | scripts/batch-update-modules.py:22-76 | when every page opens or is missing, the report is one line per module, in table order, then the closing line |
| BatchUpdate.ReadFailureStopsReport | scripts/batch-update-modules.py:29 | a page that cannot be opened ends the report: only the lines of the pages before it are printed, and no closing line |
| BatchUpdate.CheckPage | scripts/batch-update-modules.py:23-74 | the loop body for one page gives the line for its outcome, and stops the run exactly when the path exists but cannot be opened |
| BatchUpdate.Run | scripts/batch-update-modules.py:22-76 | the loop prints exactly the report: a line per page until one cannot be opened, and the closing line if none fails |
| BatchUpdate.UnmigratedPagesNeedManualUpdate | scripts/batch-update-modules.py:32-74 | every page that opens and is not migrated is reported as needing a manual update |
| BatchUpdate.SkipPieces | scripts/batch-update-modules.py:58-71 | literal text, escaped braces and name fields of the template are read whole, so the text after them decides whether Python accepts the template |
| BatchUpdate.SpelledConcat | scripts/batch-update-modules.py:58-71 | the template text of two runs of pieces is the text of each, joined |
| BatchUpdate.PiecesAccepted | scripts/batch-update-modules.py:58-71 | any template made of brace-free text, escaped braces and name fields is a valid f-string |
| BatchUpdate.AngleAfterSingleBraceRejected | scripts/batch-update-modules.py:62 | a single `{` followed by `<` makes the whole template invalid, whatever comes before it |
| BatchUpdate.AsWrittenRejected | scripts/batch-update-modules.py:62 | the template as written, with `{<` on line 62, is not a valid f-string |
| BatchUpdate.AsWrittenPrintsNothing | scripts/batch-update-modules.py:62 | the script as written prints nothing, which differs from the intended report whenever every page opens or is missing |
| BatchUpdate.IntendedTemplateAccepted | scripts/batch-update-modules.py:58-71 | with the brace doubled the template is a valid f-string, and the script prints the report that Run computes |
| UiController.InitialState | client/src/contexts/MaterialTailwindContext.tsx:58-66 | every panel starts closed, the sidenav is white and blue, and the navbar is transparent and not fixed |
| UiController.ReduceSetsOnlyItsField | client/src/contexts/MaterialTailwindContext.tsx:30-48 | an action sets its own field to its value and keeps every other field. An unknown action changes nothing |
| UiController.ReduceIdempotent | client/src/contexts/MaterialTailwindContext.tsx:30-45 | applying an action twice equals applying it once |
| UiController.ReduceCommutes | client/src/contexts/MaterialTailwindContext.tsx:30-45 | actions on different fields commute |
| UiController.CommuteOnField | client/src/contexts/MaterialTailwindContext.tsx:30-45 | actions on different fields give each field the same value in either order |
| UiController.FieldsDetermineState | client/src/contexts/MaterialTailwindContext.tsx:7-15 | two states that agree on every field are equal |
| UiController.SetOpenSidenav | client/src/contexts/MaterialTailwindContext.tsx:90-91 | the action sets the sidenav flag to the value |
| UiController.SetOpenRightSidebar | client/src/contexts/MaterialTailwindContext.tsx:93-94 | the action sets the right sidebar flag to the value |
| UiController.SetSidenavType | client/src/contexts/MaterialTailwindContext.tsx:96-97 | the action sets the sidenav type to the value |
| UiController.SetSidenavColor | client/src/contexts/MaterialTailwindContext.tsx:99-100 | the action sets the sidenav colour to the value |
| UiController.SetTransparentNavbar | client/src/contexts/MaterialTailwindContext.tsx:102-103 | the action sets the transparency flag to the value |
| UiController.SetFixedNavbar | client/src/contexts/MaterialTailwindContext.tsx:105-106 | the action sets the fixed flag to the value |
| UiController.SetOpenConfigurator | client/src/contexts/MaterialTailwindContext.tsx:108-109 | the action sets the configurator flag to the value |
| Actions.Plural | client/src/lib/actions.ts:15 | the segment always ends in "s". A type ending in "s" is kept; any other gets one "s" added |
| Actions.PluralIdempotent | client/src/lib/actions.ts:15 | pluralising twice equals pluralising once |
| Actions.PluralMerges | client/src/lib/actions.ts:15 | two types share a segment only when they are equal or one is the other plus "s" |
| Actions.HandleView | client/src/lib/actions.ts:12-20 | with a navigator, it goes to "/", the plural, "/" and the id. Without one, it shows "Viewing <type> #<id>" |
| Actions.ViewPathParts | client/src/lib/actions.ts:12-17 | the view path starts with "/" and the plural, and ends with "/" and the id |
| Actions.HandleEdit | client/src/lib/actions.ts:22-29 | the edit callback is called with the id when there is one; otherwise "Opening editor for <type> #<id>" is shown |
| Actions.PatternHasShape | client/src/lib/actions.ts:109 | an address the pattern accepts has no whitespace, exactly one "@" with text before it, and a dot with text on both sides after it |
| Actions.ShapeHasPattern | client/src/lib/actions.ts:109 | an address of that shape is accepted by the pattern |
| Actions.EmailPatternIffShape | client/src/lib/actions.ts:108-113 | the pattern accepts exactly the addresses of that shape |
| Actions.EmailExample | client/src/lib/actions.ts:109 | "a@b.c" is accepted |
| Actions.TwoAtsRejected | client/src/lib/actions.ts:108-113 | an address with two "@" is refused |
| Actions.NoDotRejected | client/src/lib/actions.ts:108-113 | an address without a dot is refused |
| Actions.LeadingAtRejected | client/src/lib/actions.ts:108-113 | an address starting with "@" is refused |
| Actions.HandleEmail | client/src/lib/actions.ts:86-113 | with no recipient and no prompt answer it asks for one. Otherwise the address is sent to exactly when the pattern accepts it, and refused as invalid when it does not |
| Actions.ContentKind | client/src/lib/actions.ts:148-224 | the quotation content is picked exactly for "estimate" and "quotation" in any case. The generic content is picked exactly for types outside the five known ones |
| Actions.DocumentHeading | client/src/lib/actions.ts:145-230 | the heading is "INVOICE #", "PAYMENT RECEIPT #", "QUOTATION #" (for an estimate or quotation) or "BUSINESS PROPOSAL #" followed by the number, by kind. Any other type is headed by its upper-cased name with leading whitespace trimmed, " #" and the number. A type that is all whitespace leaves just "#" and the number |
| Actions.BlankTypeHeading | client/src/lib/actions.ts:223-230 | a type made only of whitespace gets the generic template, headed "#" and the number |
| Actions.HeadingIgnoresCase | client/src/lib/actions.ts:148 | types equal up to case get the same content and heading |
| Actions.EstimateIsQuotation | client/src/lib/actions.ts:186-189 | "Estimate" and "QUOTATION" both get the heading "QUOTATION #" and the number |
| Actions.EmailTemplateFor | client/src/lib/actions.ts:235-275 | the fallback template is used exactly for names other than the four lower-case ones, and names the type. A known template matches the document content picked for the type |
| Actions.EmailTemplateIsCaseSensitive | client/src/lib/actions.ts:235-275 | "Invoice" and "quotation" get known document content but the fallback e-mail |
| DashboardLayout.IsActive | client/src/components/DashboardLayout.tsx:140-143 | a missing or empty href is never active. Otherwise the link is active exactly when the location equals the href or starts with the href and "/" |
| DashboardLayout.ActiveBelow | client/src/components/DashboardLayout.tsx:140-143 | a link active at a location stays active at every path below it |
| DashboardLayout.PrefixWithoutSlashInactive | client/src/components/DashboardLayout.tsx:140-143 | a location that continues the href with another character than "/" is not active |
| DashboardLayout.AnyActive | client/src/components/DashboardLayout.tsx:145-147 | true exactly when some link in the list is active |
| DashboardLayout.HasActiveChild | client/src/components/DashboardLayout.tsx:145-147 | true exactly when the item has children and one of them is active |
| DashboardLayout.ReceiptPageInSales | client/src/components/DashboardLayout.tsx:56-117 | a receipt page highlights the Sales group and not the Accounting group |
| DashboardLayout.MismatchInactive | client/src/components/DashboardLayout.tsx:140-143 | a location that differs from the href within the href's length is not active |
| DashboardLayout.NonEmptyWords | client/src/components/DashboardLayout.tsx:149-158 | the kept words are non-empty and no more than the pieces |
| DashboardLayout.FirstChars | client/src/components/DashboardLayout.tsx:149-158 | one character per non-empty word, its first, in order |
| DashboardLayout.Initials | client/src/components/DashboardLayout.tsx:149-158 | "U" for a missing or empty name. Otherwise the upper-cased first letters of the first two non-empty words |
| DashboardLayout.TwoWordInitials | client/src/components/DashboardLayout.tsx:149-158 | a two-word name gives its two capitals |
| DashboardLayout.BlankNameHasNoInitials | client/src/components/DashboardLayout.tsx:149-158 | a name of one space gives no initials at all, not "U" |
| DashboardLayout.AfterKey | client/src/components/DashboardLayout.tsx:160-170 | Cmd+K or Ctrl+K flips the sidebar; any other key keeps it |
| DashboardLayout.ShortcutTwice | client/src/components/DashboardLayout.tsx:160-170 | the same key press twice restores the sidebar |
| DashboardLayout.Layout.constructor | client/src/components/DashboardLayout.tsx:127-133 | nothing is expanded, and the sidebar takes the saved flag, or is open when none is saved |
| DashboardLayout.Layout.ToggleExpanded | client/src/components/DashboardLayout.tsx:134-138 | the expanded titles become the toggled list and stay distinct |
| DashboardLayout.Layout.HandleKeyDown | client/src/components/DashboardLayout.tsx:160-170 | the event is taken exactly for the shortcut, and the sidebar flag follows the key press |
| ListToggle.Removed | client/src/components/DashboardLayout.tsx:134-138 | a value remains exactly when it was there and differs from the removed one |
| ListToggle.RemovedConcat | client/src/components/DashboardLayout.tsx:134-138 | removing from two joined lists removes from each, and a single entry stays exactly when it differs. So the kept entries keep their order and every copy |
| ListToggle.RemovedAbsent | client/src/components/DashboardLayout.tsx:134-138 | removing a value that is not there changes nothing |
| ListToggle.RemovedAppended | client/src/components/DashboardLayout.tsx:134-138 | removing a value just appended to a list without it restores the list |
| ListToggle.RemovedKeepsNoDuplicates | client/src/components/DashboardLayout.tsx:134-138 | removal keeps a list free of duplicates |
| ListToggle.Toggled | client/src/components/DashboardLayout.tsx:134-138 | the value is present afterwards exactly when it was absent before, and other values are untouched |
| ListToggle.ToggledKeepsNoDuplicates | client/src/components/DashboardLayout.tsx:134-138 | toggling keeps a list free of duplicates |
| ListToggle.ToggleTwice | client/src/components/DashboardLayout.tsx:134-138 | toggling twice keeps the same values, and restores the list exactly when the value was absent |
| Receipts.BucketsPartition | client/src/pages/Receipts.tsx:230-236 | every amount falls in exactly one amount range |
| Receipts.ClearedPassesAll | client/src/pages/Receipts.tsx:338-344 | cleared filters let every receipt through |
| Receipts.Filtered | client/src/pages/Receipts.tsx:215-239 | a receipt is kept exactly when it passes the search, method, status, date and amount filters |
| Receipts.FilteredConcat | client/src/pages/Receipts.tsx:215-239 | filtering two joined lists filters each, and a single receipt is kept exactly when it passes. So the shown receipts keep their order and every copy |
| Receipts.CompareTextAntisymmetric | client/src/pages/Receipts.tsx:247 | swapping two texts negates their comparison |
| Receipts.CompareAntisymmetric | client/src/pages/Receipts.tsx:240-249 | swapping two receipts negates their comparison, for every field and direction |
| Receipts.DescendingIsReversed | client/src/pages/Receipts.tsx:248 | descending order is the negated ascending order, and the ascending order of the swapped pair |
| Receipts.ReverseOfDescendingIsAscending | client/src/pages/Receipts.tsx:240-249 | a list sorted descending, reversed, is sorted ascending |
| Receipts.Reversed | client/src/pages/Receipts.tsx:248 | the list read from the other end |
| Receipts.Insert | client/src/pages/Receipts.tsx:240-249 | inserting adds exactly the one receipt |
| Receipts.InsertSorted | client/src/pages/Receipts.tsx:240-249 | inserting into a sorted list keeps it sorted |
| Receipts.Sorted | client/src/pages/Receipts.tsx:240-249 | the result is sorted on the field in the direction and holds exactly the input receipts |
| Receipts.Visible | client/src/pages/Receipts.tsx:215-249 | the shown list is sorted, holds exactly the filtered receipts, and holds each as often as the filter keeps it |
| Receipts.ToggledSort | client/src/pages/Receipts.tsx:303-310 | the clicked field becomes the sort field. Clicking the current field flips the direction; another field starts descending |
| Receipts.SortTwice | client/src/pages/Receipts.tsx:303-310 | clicking a field twice keeps the direction when it was already the field, and ends ascending otherwise |
| Receipts.Ids | client/src/pages/Receipts.tsx:316 | one id per receipt, in order |
| Receipts.SelectAll | client/src/pages/Receipts.tsx:312-318 | when every shown receipt is selected, the selection is cleared. Otherwise every shown receipt is selected and nothing else |
| Receipts.SelectAllLengthCheck | client/src/pages/Receipts.tsx:312-318 | with "a" and "b" selected and "a" and "c" shown, the length check clears the selection where the shown receipts should be selected |
| Receipts.SelectAllAgreesOnVisibleSelections | client/src/pages/Receipts.tsx:312-318 | when the selection lies within the shown receipts and neither repeats, the length check and the membership check agree |
| Receipts.ReceiptsPage.constructor | client/src/pages/Receipts.tsx:78-85 | the page starts unfiltered, sorted by date descending, with nothing selected |
| Receipts.ReceiptsPage.ToggleSort | client/src/pages/Receipts.tsx:303-310 | the sort field and direction become the toggled ones |
| Receipts.ReceiptsPage.ToggleSelect | client/src/pages/Receipts.tsx:320-324 | the selection becomes the toggled list, holding the id exactly when it did not before |
| Receipts.ReceiptsPage.ToggleSelectAllAsWritten | client/src/pages/Receipts.tsx:312-318 | the selection follows the length check against the shown receipts |
| Receipts.ReceiptsPage.ToggleSelectAll | client/src/pages/Receipts.tsx:312-318 | the selection follows the membership check against the shown receipts |
| Receipts.ReceiptsPage.ClearFilters | client/src/pages/Receipts.tsx:338-344 | all filters are cleared |
| NumberFormattingSection.CurrentFormat | client/src/components/settings/DocumentNumberFormattingSection.tsx:42-47 | the stored draft for the type, or empty prefix, 6 digits, "-" and counter 1 |
| NumberFormattingSection.Preview | client/src/components/settings/DocumentNumberFormattingSection.tsx:85-91 | with no prefix, the preview is the counter (1 for 0) padded to the width (6 for 0) |
| NumberFormattingSection.PreviewIsNextNumber | client/src/components/settings/DocumentNumberFormattingSection.tsx:85-91 | the preview of a stored format is exactly the number the server issues next from it |
| NumberFormattingSection.NoneSeparatorPreviewsDash | client/src/components/settings/DocumentNumberFormattingSection.tsx:89 | the "None" separator previews like "-", with a "-" after the prefix |
| NumberFormattingSection.DefaultPreview | client/src/components/settings/DocumentNumberFormattingSection.tsx:85-91 | the defaults preview as "000001" |
| NumberFormattingSection.PreviewDigits | client/src/components/settings/DocumentNumberFormattingSection.tsx:85-91 | the preview starts with the prefix and separator, and the rest reads back as the counter |
| NumberFormattingSection.CurrentNumberInput | client/src/components/settings/DocumentNumberFormattingSection.tsx:210 | a non-numeric or zero entry becomes 1, any other number is kept, and the result is never 0 |
| NumberFormattingSection.CurrentNumberRoundTrip | client/src/components/settings/DocumentNumberFormattingSection.tsx:206-210 | typing back a shown non-zero counter stores that counter |
| NumberFormattingSection.PaddingOptionsAreTwoToEight | client/src/components/settings/DocumentNumberFormattingSection.tsx:158-161 | the menu offers exactly 2 to 8 digits, and each label pads "1" to its width |
| NumberFormattingSection.PaddingOptionRoundTrip | client/src/components/settings/DocumentNumberFormattingSection.tsx:145-149 | a chosen option's text reads back as its number |
| NumberFormattingSection.UpdateRequest | client/src/components/settings/DocumentNumberFormattingSection.tsx:49-57 | the request names the type and carries the shown prefix, padding and separator |
| NumberFormattingSection.SavedNewFormatMatchesPreview | client/src/components/settings/DocumentNumberFormattingSection.tsx:49-57 | saving a type with no format yet stores the example the preview shows for counter 1 |
| NumberFormattingSection.FormattingSection.constructor | client/src/components/settings/DocumentNumberFormattingSection.tsx:21-22 | no drafts yet, and the invoice type is selected |
| NumberFormattingSection.FormattingSection.Loaded | client/src/components/settings/DocumentNumberFormattingSection.tsx:33-40 | the loaded record becomes the selected type's draft |
| NumberFormattingSection.FormattingSection.SelectType | client/src/components/settings/DocumentNumberFormattingSection.tsx:105 | the type becomes the selected one |
| NumberFormattingSection.FormattingSection.SetPrefix | client/src/components/settings/DocumentNumberFormattingSection.tsx:127-132 | only the selected draft's prefix changes |
| NumberFormattingSection.FormattingSection.SetPadding | client/src/components/settings/DocumentNumberFormattingSection.tsx:145-150 | only the selected draft's padding changes, to the chosen option |
| NumberFormattingSection.FormattingSection.SetSeparator | client/src/components/settings/DocumentNumberFormattingSection.tsx:174-179 | only the selected draft's separator changes |
| NumberFormattingSection.FormattingSection.SetCurrentNumber | client/src/components/settings/DocumentNumberFormattingSection.tsx:206-211 | only the selected draft's counter changes, to the parsed entry, which is never 0 |
| PasswordMeter.ByLength | client/src/pages/Security.tsx:57-63 | the level is empty, Weak, Fair, Good or Strong exactly when the length falls in that band |
| PasswordMeter.ByLengthMonotone | client/src/pages/Security.tsx:57-63 | a longer password never scores lower |
| Security.PasswordStrength | client/src/pages/Security.tsx:57-63 | measured in UTF-16 code units, as JavaScript's `length` counts: empty scores 0, under 6 Weak, under 10 Fair, under 14 Good, and longer Strong |
| Security.StrengthMonotone | client/src/pages/Security.tsx:57-63 | a password of more UTF-16 code units never scores lower |
| Security.ChangeCheck | client/src/pages/Security.tsx:33-41 | a change is sent exactly when the two passwords match and have at least 8 UTF-16 code units. A mismatch is reported first, then a short password |
| Security.MismatchReportedFirst | client/src/pages/Security.tsx:33-41 | a short password that also mismatches is reported as a mismatch |
| Security.SecurityPage.constructor | client/src/pages/Security.tsx:13-21 | all fields start empty and nothing is loading |
| Security.SecurityPage.HandleInputChange | client/src/pages/Security.tsx:23-28 | only the edited field changes, to the value |
| Security.SecurityPage.HandlePasswordChange | client/src/pages/Security.tsx:30-44 | the outcome is the change check. Only a sent change starts loading |
| Security.SecurityPage.SubmitForm | client/src/pages/Security.tsx:88-161 | with any of the three required fields empty, nothing is submitted and nothing changes. Otherwise the outcome is the change check, and only a sent change starts loading |
| Security.SecurityPage.ChangeCompleted | client/src/pages/Security.tsx:46-54 | a completed change clears all fields and stops loading |
| ResetPassword.PasswordStrength | client/src/pages/ResetPassword.tsx:23-29 | measured in UTF-16 code units: empty scores 0, under 6 Weak, under 8 Fair, under 12 Good, and longer Strong |
| ResetPassword.StrengthMonotone | client/src/pages/ResetPassword.tsx:23-29 | a password of more UTF-16 code units never scores lower |
| ResetPassword.AcceptableIsAtLeastGood | client/src/pages/ResetPassword.tsx:23-29 | a password of at least 8 UTF-16 code units shows at least Good |
| ResetPassword.SubmitCheck | client/src/pages/ResetPassword.tsx:33-54 | each refusal holds exactly in its case: no token, then an empty field, then under 8 UTF-16 code units, then a mismatch. The reset is accepted exactly for a token and two equal passwords of 8 or more code units |
| ResetPassword.ButtonAndHandlerAgree | client/src/pages/ResetPassword.tsx:207-215 | an enabled button leads only to a too-short refusal or to acceptance. Every accepted input has the button enabled, and every mismatch shows the hint |
| ResetPassword.ViewOf | client/src/pages/ResetPassword.tsx:79-104 | the invalid-link view shows exactly when the token is missing, and the success view exactly when there is a token and the reset succeeded |
| ResetPassword.ResetPasswordPage.constructor | client/src/pages/ResetPassword.tsx:14-21 | the page keeps the token, with empty fields and nothing loading or done |
| ResetPassword.ResetPasswordPage.HandleSubmit | client/src/pages/ResetPassword.tsx:33-77 | the outcome is the submit check. A refusal changes nothing; an acceptance ends with the success view |
| Employees.NewEmployee | client/src/pages/Employees.tsx:171-182 | the record numbered n has id n and number "EMP-" with n padded to three digits. It takes the draft's fields, with "" for missing phone and position, "active" for a missing status, 0 for a missing salary, and today's date |
| Employees.EmployeeIdShape | client/src/pages/Employees.tsx:172-173 | an employee number starts with "EMP-", has at least 7 characters, and the rest reads back as the id |
| Employees.NextId | client/src/pages/Employees.tsx:171 | the corrected id is at least 1 and differs from every id in use |
| Employees.NextIdOnSequentialIds | client/src/pages/Employees.tsx:171 | when the ids are 1 to n in order, the corrected id equals the count plus one, as written |
| Employees.MaxIdAtMost | client/src/pages/Employees.tsx:171 | the largest id is within any bound on all the ids |
| Employees.AddedAsWritten | client/src/pages/Employees.tsx:165-187 | an incomplete draft changes nothing. A complete one is appended with the count plus one as its id |
| Employees.Added | client/src/pages/Employees.tsx:165-187 | an incomplete draft changes nothing. A complete one is appended after the others with one past the largest id |
| Employees.AddedKeepsDistinctIds | client/src/pages/Employees.tsx:165-187 | the corrected add keeps the ids distinct |
| Employees.Deleted | client/src/pages/Employees.tsx:447-450 | no employee with that id remains |
| Employees.DeletedConcat | client/src/pages/Employees.tsx:447-450 | deleting from two joined lists deletes from each, and a single employee stays exactly when its id differs. So the other employees remain, in order, with every copy |
| Employees.DeletedMembers | client/src/pages/Employees.tsx:447-450 | an employee remains exactly when it was there and has another id |
| Employees.DeletedKeepsDistinctIds | client/src/pages/Employees.tsx:447-450 | deleting keeps the ids distinct |
| Employees.DeleteSecondInitial | client/src/pages/Employees.tsx:71-120 | deleting "2" from the initial four leaves the first, third and fourth |
| Employees.LengthIdCollides | client/src/pages/Employees.tsx:171-173 | when an employee already holds the count plus one as id, the as-written add gives two employees the same id and number |
| Employees.IdReusedAfterDelete | client/src/pages/Employees.tsx:171-173 | from the initial four, delete "2" and add: the as-written add gives two employees the id "4" |
| Employees.MaxIdAfterDelete | client/src/pages/Employees.tsx:71-120 | after that delete the largest id is still 4 |
| Employees.AddedAfterMax | client/src/pages/Employees.tsx:171 | the corrected add takes one past the largest id |
| Employees.FreshIdAfterDelete | client/src/pages/Employees.tsx:171 | after that delete, the corrected add takes id "5" |
| Employees.Filtered | client/src/pages/Employees.tsx:127-137 | an employee is shown exactly when it matches the search and the status filter |
| Employees.FilteredConcat | client/src/pages/Employees.tsx:127-137 | filtering two joined lists filters each. With Employees.FilteredSingle, the shown employees keep their order and every copy |
| Employees.FilteredSingle | client/src/pages/Employees.tsx:127-137 | a single employee is shown exactly when it matches the search and the status filter |
| Employees.UnfilteredShowsAll | client/src/pages/Employees.tsx:127-137 | an empty search with status "all" shows everyone, in order |
| Employees.CountStatus | client/src/pages/Employees.tsx:189-190 | the count never exceeds the number of employees |
| Employees.CountStatusAppend | client/src/pages/Employees.tsx:189-190 | appending an employee adds one to its own status count and nothing to the others |
| Employees.AddUpdatesSummary | client/src/pages/Employees.tsx:184-191 | an add raises the salary total by the new salary and the active count by one when the new employee is active |
| Employees.FreshDraftIsActive | client/src/pages/Employees.tsx:123-125 | an employee added from a fresh draft is active |
| Employees.DeleteLowersCounts | client/src/pages/Employees.tsx:189-190 | deleting never raises a status count |
| Employees.EmployeesPage.constructor | client/src/pages/Employees.tsx:122-125 | the page holds the initial employees and a fresh draft, with no search, status "all" and the dialog closed |
| Employees.EmployeesPage.HandleAddEmployeeAsWritten | client/src/pages/Employees.tsx:165-187 | the list becomes the as-written add. An add closes the dialog and resets the draft; a refusal keeps both |
| Employees.EmployeesPage.HandleAddEmployee | client/src/pages/Employees.tsx:165-187 | the list becomes the corrected add and its ids stay distinct. An add closes the dialog and resets the draft; a refusal keeps both |
| Employees.EmployeesPage.Delete | client/src/pages/Employees.tsx:447-450 | the list becomes the deleted one and its ids stay distinct |
| Text.PadStart | server/db.ts:636 | the result is the text, preceded by enough pad characters to reach the width, and never shorter than the text |
| Text.IntToString | server/db.ts:636 | the text is never empty, starts with "-" or a digit, and is all digits exactly for numbers that are not negative |
| Text.Digits | server/db.ts:636 | the digits of a natural number are never empty, and start with "0" only for 0 |
| Text.ParseIntOfIntToString | server/db.ts:632 | reading back a printed number gives the number |
| Text.ParseIntOfPadded | server/db.ts:632-636 | reading back a zero-padded number gives the number |
| Text.PaddedDistinct | server/db.ts:636 | different numbers padded to the same width differ |
| Text.ParseIntNoDigits | server/db.ts:632-633 | a text without any digit does not parse |
| Text.Utf16Length | client/src/pages/Security.tsx:58-61 | JavaScript's `length`: at least the number of characters and at most twice it, and equal to it when every character is in the Basic Multilingual Plane |
| Text.Utf16LengthConcat | client/src/pages/Security.tsx:58-61 | the length of two texts joined is the sum of their lengths |
| Text.ReplaceOnce | scripts/batch-update-modules.py:38-41 | a text holding the pattern once has it replaced there and is otherwise unchanged |
| Text.TrimStartConcat | client/src/lib/actions.ts:223-230 | trimming two texts joined trims the first, and reaches the second only when the first is all whitespace |
| Text.TrimStartBlank | client/src/lib/actions.ts:223-230 | text made only of whitespace trims to nothing |
| Text.SplitJoin | client/src/lib/activityLog.ts:159-162 | splitting a join at a separator no piece contains gives the pieces back |

## Left out

- Storage and I/O are not modelled. MySQL, JSON files and `localStorage` become fields and
  constructor inputs. Writing the sidebar flag back to `localStorage` is not modelled.
- Clocks and random ids become inputs. Ids built from `Date.now()` and `Math.random()` come
  from the database's `tick` counter. Timestamps are `now` parameters.
- Rendering is not modelled: markup, icons, colours, toasts and the redirect timer of the
  reset-password page. The sidebar's menu button flips the same flag as the shortcut and has
  no member of its own.
- A missing database is not modelled. Every path where `getDb()` yields nothing assumes a
  database instead.
- `getDocumentNumberFormat` is a lookup in the formats map. The model leaves out its fallback
  for a missing formats table, and the id `updateDocumentNumberFormat` returns in that case.
- Db.GetNextDocumentNumber: reading and storing the counter is one step. Two concurrent
  requests that could get the same number are not modelled.
- Db.CategoryDefaults: does not sort the rows by key. It lists them in stored order.
- Db.UpdateUser: a `null` role is not modelled. A user row always has a role in the model.
- DbUsers.UpdateUser: a `null` role or active flag is not modelled. A user row always has both
  in the model.
- LegacyNumbersDistinct: counters are unbounded integers. The source keeps the counter in a
  JavaScript number. At 2^53, adding 1 no longer changes it, so the same number is issued
  again. From 10^21 on, `String` writes the counter in exponent form, which `parseInt` reads
  back as a single digit. Neither effect is modelled.
- SuccessiveLegacyNumbersDiffer: for the same reason, it holds for the model's unbounded
  counter only. It fails in the source once the counter reaches 2^53.
- SuccessiveFormattedNumbersDiffer: the format counter is an unbounded integer too. The same
  JavaScript number limits of `currentNumber + 1` and of `String` are not modelled.
- DbUsers.CreateUser: the only insert failure modelled is an id already in use. Other
  database errors are not modelled.
- DbUsers.ProjectComments: newest-first ordering is taken as the stored order. New comments
  are stored in front.
- Receipts.Sorted: `Array.prototype.sort` is modelled as one sorted permutation. The order
  of receipts that compare equal is not modelled.
- Receipts.CompareTextAntisymmetric: `localeCompare` is taken as code-point order.
- Receipts.Filtered: dates are compared as numeric time values.
- DocumentForm.GrandTotal: amounts are reals, so floating-point rounding is not modelled.
- DocumentForm.Editor.constructor: the editor starts from the default line. Line items
  passed in as initial data are not modelled.
- DashboardLayout.FirstChars: takes the first whole character of each word, where the source's
  `n[0]` takes the first UTF-16 code unit.
- DashboardLayout.Initials: `n[0]` and `.slice(0, 2)` count UTF-16 code units; the model takes
  whole characters. A word starting outside the Basic Multilingual Plane gives half a
  character in the source, and the two-unit slice can then hold one initial instead of two.
- Case mapping and whitespace are ASCII only. `toLowerCase`, `toUpperCase`, `trim` and `\s`
  are not Unicode-aware in the model.
- Record lookups do not model keys inherited from `Object.prototype`, such as "constructor".
  This affects the breadcrumb map, the default-prefix table and the e-mail template table
  (`templates[type]` in `generateEmailTemplate`, Actions.EmailTemplateFor).
- `updatedBy` and `updatedAt` on settings and format rows are not modelled.
- ActivityLog.Quoted: quotes inside a cell are left unescaped, as in the source. The browser
  download of the CSV file is not modelled.
- Actions.HandleEmail: the simulated send always succeeds, so its error branch is not
  modelled. The delete, download, duplicate and bulk handlers are not modelled: they only
  ask for confirmation and show a message.
- Actions.DocumentHeading: only the heading of the generated document is modelled. The
  plain-text body below it (timestamp, company details, client data, amounts) is not. The HTML
  of the known e-mail templates is not modelled either; Actions.EmailTemplateFor gives only
  which template is picked and the fallback paragraph.
- BatchUpdate.Run: the script reports on pages and never writes one. The model leaves out the
  return-statement pattern. It keeps the template only to decide whether Python accepts it.
  An `open` failure is one outcome; its exception and traceback are not modelled.
- BatchUpdate.UnmigratedPagesNeedManualUpdate: holds for the script with the brace on line 62
  doubled. As written the script prints nothing (BatchUpdate.AsWrittenPrintsNothing).
- BatchUpdate.FStringAccepts: covers only the f-string syntax the template uses: literal text,
  `{{`, `}}`, and fields holding a name, an attribute or a call without arguments. Format
  specs, conversions and nested fields are not modelled.
- Employees.NewEmployee: the join date is a parameter. A salary that is not a number is not
  modelled. The confirmation before a delete is not modelled.

## Findings

| source | as written | input that shows it | evidently intended | confidence | as-written member | corrected member |
|---|---|---|---|---|---|---|
| client/src/components/forms/DocumentForm.tsx:98-106 | `removeLineItem` is memoised on `[lineItems.length]`, so it filters the list from the last time the length changed | add a line (two lines), set line "1" to quantity 5, remove line "2": line "1" is back to quantity 1 | removal from the current list | high, not executed | `DocumentForm.StaleRemoveLosesEdit`, `DocumentForm.Editor.RemoveLineItemAsWritten` | `DocumentForm.Editor.RemoveLineItem`, `DocumentForm.Removed` |
| client/src/pages/Employees.tsx:171-173 | the new id is `String(employees.length + 1)` | from the initial four employees, delete "2", then add: two employees have id "4" and number "EMP-004" | an id not in use, one past the largest | high, not executed | `Employees.IdReusedAfterDelete`, `Employees.AddedAsWritten` | `Employees.FreshIdAfterDelete`, `Employees.AddedKeepsDistinctIds` |
| scripts/batch-update-modules.py:62 | the replacement f-string writes `icon={<{icon} className="w-6 h-6" />}}`, a single `{` before `<`, so Python refuses to compile the script | any module table and any page files: the script prints nothing, not even the closing line | `icon={{<{icon} className="w-6 h-6" />}}`, so that the loop prints its report | high, not executed | `BatchUpdate.AsWrittenRejected`, `BatchUpdate.AsWrittenPrintsNothing` | `BatchUpdate.IntendedTemplateAccepted`, `BatchUpdate.Run` |
| client/src/pages/Receipts.tsx:312-318 | "select all" clears the selection when its count equals the count of shown receipts | selected ["a", "b"], shown ["a", "c"]: the click clears everything instead of selecting "a" and "c" | clear only when every shown receipt is selected | medium, not executed | `Receipts.SelectAllLengthCheck`, `Receipts.ReceiptsPage.ToggleSelectAllAsWritten` | `Receipts.SelectAll`, `Receipts.ReceiptsPage.ToggleSelectAll` |
