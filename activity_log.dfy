/**
 * client/src/lib/activityLog.ts: the activity log kept in browser storage. Each logged
 * action is appended at the end, the log is cut back to its newest 1000 entries, and the
 * log can be filtered by module, item or user and exported as CSV text.
 */
module ActivityLog {
  import opened Wrappers
  import opened Text

  const MaxEntries: nat := 1000

  datatype Action = Create | Update | Delete | View | Download | Email

  function ActionText(a: Action): string {
    match a
    case Create => "create"
    case Update => "update"
    case Delete => "delete"
    case View => "view"
    case Download => "download"
    case Email => "email"
  }

  /** The metadata `logUpdate` attaches: the changed fields, if the caller passed any. */
  datatype Metadata = Metadata(changes: Option<map<string, string>>)

  /** What a caller passes to `logActivity`: an entry without id and timestamp. */
  datatype Activity = Activity(
    userId: string,
    action: Action,
    moduleName: string,
    itemId: string,
    itemName: string,
    description: string,
    metadata: Option<Metadata>)

  /** A stored entry; the timestamp is kept as the ISO text it is serialised to. */
  datatype LogEntry = LogEntry(
    id: string,
    userId: string,
    action: Action,
    moduleName: string,
    itemId: string,
    itemName: string,
    description: string,
    timestamp: string,
    metadata: Option<Metadata>)

  /** The `activityLogs` storage slot: absent, holding text that does not parse, or holding a log. */
  datatype Storage = Missing | Corrupt | Stored(logs: seq<LogEntry>)

  /** The entry `logActivity` builds at clock time now (milliseconds, also rendered as ISO text). */
  function Stamp(a: Activity, now: int, nowIso: string): (e: LogEntry)
    ensures e.id == "log_" + IntToString(now) && e.timestamp == nowIso
    ensures e.userId == a.userId && e.action == a.action && e.moduleName == a.moduleName && e.itemId == a.itemId
    ensures e.itemName == a.itemName && e.description == a.description && e.metadata == a.metadata
  {
    LogEntry("log_" + IntToString(now), a.userId, a.action, a.moduleName, a.itemId, a.itemName, a.description, nowIso, a.metadata)
  }

  /** The log after pushing e and, when it has grown past the bound, shifting off the oldest entry. */
  function Appended(logs: seq<LogEntry>, e: LogEntry): seq<LogEntry> {
    var grown := logs + [e];
    if |grown| > MaxEntries then grown[1..] else grown
  }

  /**
   * Appending keeps a log within the bound; the new entry is last; below the bound nothing
   * is lost, and at the bound exactly the oldest entry is dropped.
   */
  lemma AppendedBounded(logs: seq<LogEntry>, e: LogEntry)
    ensures |logs| <= MaxEntries ==> |Appended(logs, e)| <= MaxEntries
    ensures var r := Appended(logs, e); |r| > 0 && r[|r| - 1] == e
    ensures |logs| < MaxEntries ==> Appended(logs, e) == logs + [e]
    ensures |logs| == MaxEntries ==> Appended(logs, e) == logs[1..] + [e]
  {
    if |logs| == MaxEntries {
      assert (logs + [e])[1..] == logs[1..] + [e];
    }
  }

  // ---------------------------------------------------------------- filters

  datatype Field = ModuleField | ItemField | UserField

  function FieldOf(e: LogEntry, f: Field): string {
    match f
    case ModuleField => e.moduleName
    case ItemField => e.itemId
    case UserField => e.userId
  }

  /** `logs.filter(log => log.<field> === value)`. */
  function Matching(logs: seq<LogEntry>, f: Field, value: string): (r: seq<LogEntry>)
    ensures forall e :: e in r <==> e in logs && FieldOf(e, f) == value
    ensures |r| <= |logs|
  {
    if logs == [] then []
    else (if FieldOf(logs[0], f) == value then [logs[0]] else []) + Matching(logs[1..], f, value)
  }

  /** Filtering distributes over concatenation, so the filtered entries keep their order. */
  lemma {:induction false} MatchingConcat(a: seq<LogEntry>, b: seq<LogEntry>, f: Field, value: string)
    ensures Matching(a + b, f, value) == Matching(a, f, value) + Matching(b, f, value)
  {
    if a == [] {
      assert a + b == b;
    } else {
      assert (a + b)[1..] == a[1..] + b;
      MatchingConcat(a[1..], b, f, value);
    }
  }

  /** Below the bound, logging e extends each filtered view by e exactly when e matches it. */
  lemma MatchingAfterAppend(logs: seq<LogEntry>, e: LogEntry, f: Field, value: string)
    requires |logs| < MaxEntries
    ensures Matching(Appended(logs, e), f, value) == Matching(logs, f, value) + (if FieldOf(e, f) == value then [e] else [])
  {
    AppendedBounded(logs, e);
    MatchingConcat(logs, [e], f, value);
    assert [e][1..] == [];
  }

  // ---------------------------------------------------------------- entry builders

  /** `logDelete`, `logCreate` and `logUpdate` describe the item as "<Verb> <module> item: <name>". */
  function Described(verb: string, moduleName: string, itemName: string): string {
    verb + " " + moduleName + " item: " + itemName
  }

  function DeleteActivity(moduleName: string, itemId: string, itemName: string, userId: Option<string>): (a: Activity)
    ensures a.action == Delete && a.userId == userId.GetOr("current-user") && a.metadata.None?
    ensures a.moduleName == moduleName && a.itemId == itemId && a.itemName == itemName
    ensures a.description == "Deleted " + moduleName + " item: " + itemName
  {
    Activity(userId.GetOr("current-user"), Delete, moduleName, itemId, itemName, Described("Deleted", moduleName, itemName), None)
  }

  function CreateActivity(moduleName: string, itemId: string, itemName: string, userId: Option<string>): (a: Activity)
    ensures a.action == Create && a.userId == userId.GetOr("current-user") && a.metadata.None?
    ensures a.moduleName == moduleName && a.itemId == itemId && a.itemName == itemName
    ensures a.description == "Created " + moduleName + " item: " + itemName
  {
    Activity(userId.GetOr("current-user"), Create, moduleName, itemId, itemName, Described("Created", moduleName, itemName), None)
  }

  function UpdateActivity(moduleName: string, itemId: string, itemName: string, userId: Option<string>,
                          changes: Option<map<string, string>>): (a: Activity)
    ensures a.action == Update && a.userId == userId.GetOr("current-user") && a.metadata == Some(Metadata(changes))
    ensures a.moduleName == moduleName && a.itemId == itemId && a.itemName == itemName
    ensures a.description == "Updated " + moduleName + " item: " + itemName
  {
    Activity(userId.GetOr("current-user"), Update, moduleName, itemId, itemName, Described("Updated", moduleName, itemName), Some(Metadata(changes)))
  }

  // ---------------------------------------------------------------- CSV export

  const CsvHeaders: seq<string> := ["ID", "User ID", "Action", "Module", "Item ID", "Item Name", "Description", "Timestamp"]

  /** The header line: the column names joined by commas, not quoted. */
  const CsvHeader: string := Join(CsvHeaders, ",")

  /** A cell wrapped in double quotes (embedded quotes are not escaped). */
  function Quoted(cell: string): (r: string)
    ensures |r| == |cell| + 2 && r[0] == '"' && r[|r| - 1] == '"' && r[1..|r| - 1] == cell
  {
    "\"" + cell + "\""
  }

  function Cells(e: LogEntry): seq<string> {
    [e.id, e.userId, ActionText(e.action), e.moduleName, e.itemId, e.itemName, e.description, e.timestamp]
  }

  function CsvRow(e: LogEntry): string {
    Join(seq(8, i requires 0 <= i < 8 => Quoted(Cells(e)[i])), ",")
  }

  function CsvLines(logs: seq<LogEntry>): seq<string> {
    [CsvHeader] + seq(|logs|, i requires 0 <= i < |logs| => CsvRow(logs[i]))
  }

  /** `exportActivityLogsAsCSV`: the header line, then one line per entry, joined by newlines. */
  function Csv(logs: seq<LogEntry>): string {
    Join(CsvLines(logs), "\n")
  }

  predicate NoNewline(s: string) { '\n' !in s }

  lemma {:induction false} JoinNoNewline(parts: seq<string>, sep: string)
    requires NoNewline(sep) && forall k :: 0 <= k < |parts| ==> NoNewline(parts[k])
    ensures NoNewline(Join(parts, sep))
  {
    if |parts| > 1 {
      JoinNoNewline(parts[1..], sep);
    }
  }

  lemma RowNoNewline(e: LogEntry)
    requires forall k :: 0 <= k < 8 ==> NoNewline(Cells(e)[k])
    ensures NoNewline(CsvRow(e))
  {
    var quoted := seq(8, i requires 0 <= i < 8 => Quoted(Cells(e)[i]));
    forall k | 0 <= k < 8
      ensures NoNewline(quoted[k])
    {
      assert quoted[k] == "\"" + Cells(e)[k] + "\"";
    }
    JoinNoNewline(quoted, ",");
  }

  lemma HeaderNoNewline()
    ensures NoNewline(CsvHeader)
  {
    assert NoNewline("ID") && NoNewline("User ID") && NoNewline("Action") && NoNewline("Module");
    assert NoNewline("Item ID") && NoNewline("Item Name") && NoNewline("Description") && NoNewline("Timestamp");
    assert NoNewline(",");
    JoinNoNewline(CsvHeaders, ",");
  }

  /**
   * When no cell holds a newline, splitting the export at newlines gives back the header and
   * exactly one row per entry, in log order: 1 + |logs| lines.
   */
  lemma CsvLineStructure(logs: seq<LogEntry>)
    requires forall i, k :: 0 <= i < |logs| && 0 <= k < 8 ==> NoNewline(Cells(logs[i])[k])
    ensures Split(Csv(logs), '\n') == CsvLines(logs)
    ensures |Split(Csv(logs), '\n')| == 1 + |logs|
  {
    var lines := CsvLines(logs);
    forall k | 0 <= k < |lines|
      ensures '\n' !in lines[k]
    {
      if k == 0 {
        assert lines[0] == CsvHeader;
        HeaderNoNewline();
      } else {
        assert lines[k] == CsvRow(logs[k - 1]);
        RowNoNewline(logs[k - 1]);
      }
    }
    SplitJoin(lines, '\n');
  }

  // ---------------------------------------------------------------- the stored log

  class ActivityStore {
    var storage: Storage

    constructor ()
      ensures storage == Missing
    {
      storage := Missing;
    }

    /** `getActivityLogs`: the stored log, or [] when the slot is missing or does not parse. */
    function Logs(): (r: seq<LogEntry>)
      reads this
      ensures storage.Stored? ==> r == storage.logs
      ensures !storage.Stored? ==> r == []
    {
      if storage.Stored? then storage.logs else []
    }

    function ModuleLogs(moduleName: string): (r: seq<LogEntry>)
      reads this
      ensures forall e :: e in r <==> e in Logs() && e.moduleName == moduleName
    {
      Matching(Logs(), ModuleField, moduleName)
    }

    function ItemLogs(itemId: string): (r: seq<LogEntry>)
      reads this
      ensures forall e :: e in r <==> e in Logs() && e.itemId == itemId
    {
      Matching(Logs(), ItemField, itemId)
    }

    function UserLogs(userId: string): (r: seq<LogEntry>)
      reads this
      ensures forall e :: e in r <==> e in Logs() && e.userId == userId
    {
      Matching(Logs(), UserField, userId)
    }

    /** `logActivity`: push the stamped entry, shift once if over the bound, store the log. */
    method LogActivity(a: Activity, now: int, nowIso: string) returns (e: LogEntry)
      modifies this
      ensures e == Stamp(a, now, nowIso)
      ensures storage == Stored(Appended(old(Logs()), e))
      ensures |old(Logs())| <= MaxEntries ==> |Logs()| <= MaxEntries
      ensures |Logs()| > 0 && Logs()[|Logs()| - 1] == e
    {
      var logs := Logs();
      e := Stamp(a, now, nowIso);
      logs := logs + [e];
      if |logs| > MaxEntries {
        logs := logs[1..];
      }
      storage := Stored(logs);
      AppendedBounded(old(Logs()), e);
    }

    method ClearActivityLogs()
      modifies this
      ensures storage == Missing && Logs() == []
    {
      storage := Missing;
    }

    method LogDelete(moduleName: string, itemId: string, itemName: string, userId: Option<string>, now: int, nowIso: string)
      returns (e: LogEntry)
      modifies this
      ensures e == Stamp(DeleteActivity(moduleName, itemId, itemName, userId), now, nowIso)
      ensures storage == Stored(Appended(old(Logs()), e))
    {
      e := LogActivity(DeleteActivity(moduleName, itemId, itemName, userId), now, nowIso);
    }

    method LogCreate(moduleName: string, itemId: string, itemName: string, userId: Option<string>, now: int, nowIso: string)
      returns (e: LogEntry)
      modifies this
      ensures e == Stamp(CreateActivity(moduleName, itemId, itemName, userId), now, nowIso)
      ensures storage == Stored(Appended(old(Logs()), e))
    {
      e := LogActivity(CreateActivity(moduleName, itemId, itemName, userId), now, nowIso);
    }

    method LogUpdate(moduleName: string, itemId: string, itemName: string, userId: Option<string>,
                     changes: Option<map<string, string>>, now: int, nowIso: string)
      returns (e: LogEntry)
      modifies this
      ensures e == Stamp(UpdateActivity(moduleName, itemId, itemName, userId, changes), now, nowIso)
      ensures storage == Stored(Appended(old(Logs()), e))
    {
      e := LogActivity(UpdateActivity(moduleName, itemId, itemName, userId, changes), now, nowIso);
    }

    function ExportCsv(): (r: string)
      reads this
      ensures r == Csv(Logs())
    {
      Csv(Logs())
    }
  }
}
