/**
 * The database tables the server reads and writes, as one object whose fields are the tables.
 * A table with a unique key is a map from that key to its row; a table read in stored order
 * is a sequence. Row ids that the server draws from the clock and a random suffix are drawn
 * here from a counter, `tick`, which every id-generating operation advances.
 */
module Schema {
  import opened Wrappers
  import opened Text

  /** A row of `settings`, keyed by its unique `key`. */
  datatype Setting = Setting(id: string, value: string, category: Option<string>, description: Option<string>)

  /** A row of `documentNumberFormats`, keyed by its `documentType`. */
  datatype NumberFormat = NumberFormat(
    id: string,
    documentType: string,
    prefix: string,
    padding: int,
    separator: string,
    currentNumber: int,
    formatExample: string,
    isActive: bool)

  /** A row of `defaultSettings`. */
  datatype DefaultSetting = DefaultSetting(id: string, category: string, key: string, defaultValue: string, description: Option<string>)

  /** One JSON array element of a user's `permissions` text. */
  datatype JsonItem = JsonString(text: string) | JsonNonString

  /**
   * What `JSON.parse` makes of a user's `permissions` column: absent (NULL or empty text),
   * text that does not parse, a parsed value that is not an array, or an array.
   */
  datatype PermissionsField = NoPermissions | Unparsable | NotAnArray | PermissionArray(items: seq<JsonItem>)

  /** A row of `users`, keyed by its `id`. Timestamps are milliseconds since the epoch. */
  datatype User = User(
    id: string,
    name: Option<string>,
    email: Option<string>,
    loginMethod: Option<string>,
    role: string,
    department: Option<string>,
    isActive: bool,
    clientId: Option<string>,
    permissions: PermissionsField,
    lastSignedIn: Option<int>)

  datatype TaskStatus = Todo | InProgress | Completed | Blocked

  datatype Priority = Low | Medium | High | Urgent

  /** A row of `staffTasks`, keyed by its `id`. */
  datatype StaffTask = StaffTask(
    id: string,
    title: string,
    department: string,
    description: Option<string>,
    assignedTo: Option<string>,
    createdBy: string,
    status: TaskStatus,
    priority: Priority,
    dueDate: Option<int>,
    completedDate: Option<int>)

  datatype CommentType = Remark | Update | Issue | Question | Approval

  /** A row of `projectComments`; the table is kept newest first. */
  datatype ProjectComment = ProjectComment(
    id: string,
    projectId: string,
    userId: string,
    comment: string,
    commentType: CommentType,
    isPublic: bool)

  /** The id the server generates as `<prefix>_<time>_<random>`, drawn from the counter. */
  function FreshId(prefix: string, tick: nat): string {
    prefix + "_" + Digits(tick)
  }

  class Database {
    var settings: map<string, Setting>
    var formats: map<string, NumberFormat>
    var defaults: seq<DefaultSetting>
    /** `rolePermissions`: the link id of each (roleId, permissionId) pair. */
    var rolePermissions: map<(string, string), string>
    var users: map<string, User>
    var staffTasks: map<string, StaffTask>
    var comments: seq<ProjectComment>
    var tick: nat

    constructor ()
      ensures settings == map[] && formats == map[] && defaults == [] && rolePermissions == map[]
      ensures users == map[] && staffTasks == map[] && comments == [] && tick == 0
    {
      settings, formats, defaults, rolePermissions := map[], map[], [], map[];
      users, staffTasks, comments, tick := map[], map[], [], 0;
    }
  }
}
