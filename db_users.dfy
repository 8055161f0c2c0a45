/**
 * server/db-users.ts: creating, updating and soft-deleting users, the permission check,
 * staff tasks and the visibility of project comments.
 */
module DbUsers {
  import opened Wrappers
  import opened Schema

  type Users = map<string, User>

  predicate IsAdminRole(role: string) {
    role == "admin" || role == "super_admin"
  }

  // ---------------------------------------------------------------- createUser

  /** The fields a caller supplies to `createUser`; None stands for a field left undefined. */
  datatype NewUser = NewUser(
    id: string,
    name: Option<string>,
    email: Option<string>,
    role: Option<string>,
    department: Option<string>,
    isActive: Option<bool>,
    clientId: Option<string>,
    permissions: PermissionsField,
    loginMethod: Option<string>)

  /** The row `createUser` inserts: role "user" unless a non-empty role is given, active unless `isActive` is false. */
  function InitialUser(u: NewUser): (r: User)
    ensures r.id == u.id && r.name == u.name && r.email == u.email && r.department == u.department
    ensures r.clientId == u.clientId && r.permissions == u.permissions && r.loginMethod == u.loginMethod
    ensures r.role == (if u.role.Some? && u.role.value != "" then u.role.value else "user")
    ensures r.isActive <==> u.isActive != Some(false)
    ensures r.lastSignedIn.None?
  {
    var role := if u.role.Some? && u.role.value != "" then u.role.value else "user";
    User(u.id, u.name, u.email, u.loginMethod, role, u.department, u.isActive != Some(false),
         u.clientId, u.permissions, None)
  }

  /** `createUser`: an insert under an id that is taken fails, and the caller gets null. */
  method CreateUser(db: Database, u: NewUser) returns (r: Option<User>)
    modifies db`users
    ensures u.id in old(db.users) ==> r.None? && db.users == old(db.users)
    ensures u.id !in old(db.users) ==> r == Some(InitialUser(u)) && db.users == old(db.users)[u.id := InitialUser(u)]
  {
    if u.id in db.users {
      return None;
    }
    var row := InitialUser(u);
    db.users := db.users[u.id := row];
    r := Some(row);
  }

  // ---------------------------------------------------------------- updateUser

  /**
   * The fields `updateUser` copies when they are defined. None stands for a field left
   * undefined; for a nullable column, Some(None) stands for a field given as `null`, which is
   * defined and so copied. A `null` permissions text is NoPermissions.
   */
  datatype UserUpdate = UserUpdate(
    name: Option<Option<string>>,
    email: Option<Option<string>>,
    role: Option<string>,
    department: Option<Option<string>>,
    isActive: Option<bool>,
    clientId: Option<Option<string>>,
    permissions: Option<PermissionsField>)

  predicate NoFields(p: UserUpdate) {
    p.name.None? && p.email.None? && p.role.None? && p.department.None?
    && p.isActive.None? && p.clientId.None? && p.permissions.None?
  }

  /** The row after the defined fields are copied in; every other column is kept. */
  function ApplyUpdate(u: User, p: UserUpdate): (r: User)
    ensures r.id == u.id && r.loginMethod == u.loginMethod && r.lastSignedIn == u.lastSignedIn
    ensures p.name.Some? ==> r.name == p.name.value
    ensures p.name.None? ==> r.name == u.name
    ensures p.email.Some? ==> r.email == p.email.value
    ensures p.email.None? ==> r.email == u.email
    ensures p.role.Some? ==> r.role == p.role.value
    ensures p.role.None? ==> r.role == u.role
    ensures p.department.Some? ==> r.department == p.department.value
    ensures p.department.None? ==> r.department == u.department
    ensures p.isActive.Some? ==> r.isActive == p.isActive.value
    ensures p.isActive.None? ==> r.isActive == u.isActive
    ensures p.clientId.Some? ==> r.clientId == p.clientId.value
    ensures p.clientId.None? ==> r.clientId == u.clientId
    ensures p.permissions.Some? ==> r.permissions == p.permissions.value
    ensures p.permissions.None? ==> r.permissions == u.permissions
  {
    u.(name := p.name.GetOr(u.name),
       email := p.email.GetOr(u.email),
       role := p.role.GetOr(u.role),
       department := p.department.GetOr(u.department),
       isActive := p.isActive.GetOr(u.isActive),
       clientId := p.clientId.GetOr(u.clientId),
       permissions := p.permissions.GetOr(u.permissions))
  }

  /** An update with no defined field leaves the row as it is; applying one update twice is applying it once. */
  lemma ApplyUpdateProperties(u: User, p: UserUpdate)
    ensures NoFields(p) ==> ApplyUpdate(u, p) == u
    ensures ApplyUpdate(ApplyUpdate(u, p), p) == ApplyUpdate(u, p)
  {
  }

  /** `updateUser`: nothing is written when no field is defined; the result is the row read back. */
  method UpdateUser(db: Database, id: string, p: UserUpdate) returns (r: Option<User>)
    modifies db`users
    ensures NoFields(p) || id !in old(db.users) ==> db.users == old(db.users)
    ensures !NoFields(p) && id in old(db.users) ==> db.users == old(db.users)[id := ApplyUpdate(old(db.users)[id], p)]
    ensures r == if id in db.users then Some(db.users[id]) else None
  {
    if !NoFields(p) && id in db.users {
      db.users := db.users[id := ApplyUpdate(db.users[id], p)];
    }
    r := if id in db.users then Some(db.users[id]) else None;
  }

  /** `deleteUser` is a soft delete: the row stays and only `isActive` becomes false. */
  method DeleteUser(db: Database, id: string) returns (ok: bool)
    modifies db`users
    ensures ok
    ensures db.users.Keys == old(db.users).Keys
    ensures id in old(db.users) ==> db.users == old(db.users)[id := old(db.users)[id].(isActive := false)]
    ensures id !in old(db.users) ==> db.users == old(db.users)
  {
    if id in db.users {
      db.users := db.users[id := db.users[id].(isActive := false)];
    }
    ok := true;
  }

  // ---------------------------------------------------------------- permissions

  /** `userHasPermission(userId, name)`. */
  function UserHasPermission(users: Users, userId: string, name: string): (r: bool)
    ensures r <==> userId in users
                   && (|| IsAdminRole(users[userId].role)
                       || (users[userId].permissions.PermissionArray? && JsonString(name) in users[userId].permissions.items))
  {
    if userId !in users then false
    else
      var user := users[userId];
      if IsAdminRole(user.role) then true
      else
        match user.permissions
        case NoPermissions => false
        case Unparsable => false
        case NotAnArray => false
        case PermissionArray(items) => JsonString(name) in items
  }

  /** A soft-deleted user keeps every permission it had: the check does not look at `isActive`. */
  lemma DeleteKeepsPermissions(users: Users, id: string, userId: string, name: string)
    requires id in users
    ensures UserHasPermission(users[id := users[id].(isActive := false)], userId, name) == UserHasPermission(users, userId, name)
  {
  }

  /** Whoever holds no admin role and has unreadable permissions text is refused everything. */
  lemma UnparsablePermissionsDeny(users: Users, userId: string, name: string)
    requires userId in users && !IsAdminRole(users[userId].role)
    requires users[userId].permissions in {NoPermissions, Unparsable, NotAnArray}
    ensures !UserHasPermission(users, userId, name)
  {
  }

  /** Storing a permissions array that names a permission through `updateUser` grants that permission. */
  lemma UpdateGrantsListedPermission(users: Users, id: string, p: UserUpdate, name: string)
    requires id in users && p.permissions.Some? && p.permissions.value.PermissionArray?
    requires JsonString(name) in p.permissions.value.items
    ensures UserHasPermission(users[id := ApplyUpdate(users[id], p)], id, name)
  {
  }

  // ---------------------------------------------------------------- staff tasks

  /**
   * `createStaffTask`: a new task is "todo" with the given priority, "medium" by default, and
   * carries the optional description, assignee and due date as given.
   */
  method CreateStaffTask(db: Database, title: string, department: string, createdBy: string,
                         description: Option<string>, assignedTo: Option<string>, priority: Option<Priority>,
                         dueDate: Option<int>) returns (task: StaffTask)
    modifies db`staffTasks, db`tick
    ensures task == StaffTask(FreshId("st", old(db.tick)), title, department, description, assignedTo, createdBy,
                              Todo, priority.GetOr(Medium), dueDate, None)
    ensures db.staffTasks == old(db.staffTasks)[task.id := task]
    ensures db.tick == old(db.tick) + 1
  {
    task := StaffTask(FreshId("st", db.tick), title, department, description, assignedTo, createdBy,
                      Todo, priority.GetOr(Medium), dueDate, None);
    db.tick := db.tick + 1;
    db.staffTasks := db.staffTasks[task.id := task];
  }

  /** A staff task after `updateTaskStatus(status)` at time now: the completion date is set only on completion. */
  function WithStatus(t: StaffTask, status: TaskStatus, now: int): (r: StaffTask)
    ensures r.status == status
    ensures status == Completed ==> r.completedDate == Some(now)
    ensures status != Completed ==> r.completedDate == t.completedDate
    ensures r.(status := t.status, completedDate := t.completedDate) == t
  {
    if status == Completed then t.(status := status, completedDate := Some(now))
    else t.(status := status)
  }

  /** Reopening a completed task keeps its old completion date. */
  lemma ReopenKeepsCompletionDate(t: StaffTask, done: int, status: TaskStatus, now: int)
    requires status != Completed
    ensures WithStatus(WithStatus(t, Completed, done), status, now).completedDate == Some(done)
  {
  }

  method UpdateTaskStatus(db: Database, taskId: string, status: TaskStatus, now: int) returns (ok: bool)
    modifies db`staffTasks
    ensures ok
    ensures taskId in old(db.staffTasks) ==> db.staffTasks == old(db.staffTasks)[taskId := WithStatus(old(db.staffTasks)[taskId], status, now)]
    ensures taskId !in old(db.staffTasks) ==> db.staffTasks == old(db.staffTasks)
  {
    if taskId in db.staffTasks {
      var t := db.staffTasks[taskId];
      var updated := t.(status := status);
      if status == Completed {
        updated := updated.(completedDate := Some(now));
      }
      db.staffTasks := db.staffTasks[taskId := updated];
    }
    ok := true;
  }

  // ---------------------------------------------------------------- project comments

  /**
   * `addProjectComment`: the new comment becomes the newest one. Its type is "remark" and it is
   * public unless the caller says otherwise.
   */
  method AddProjectComment(db: Database, projectId: string, userId: string, comment: string,
                           commentType: Option<CommentType>, isPublic: Option<bool>)
    returns (c: ProjectComment)
    modifies db`comments, db`tick
    ensures c == ProjectComment(FreshId("pc", old(db.tick)), projectId, userId, comment,
                                commentType.GetOr(Remark), isPublic.GetOr(true))
    ensures db.comments == [c] + old(db.comments)
    ensures db.tick == old(db.tick) + 1
  {
    c := ProjectComment(FreshId("pc", db.tick), projectId, userId, comment, commentType.GetOr(Remark), isPublic.GetOr(true));
    db.tick := db.tick + 1;
    db.comments := [c] + db.comments;
  }

  /** `getProjectComments(projectId, includePrivate)`, newest first. */
  function ProjectComments(comments: seq<ProjectComment>, projectId: string, includePrivate: bool): (r: seq<ProjectComment>)
    ensures forall c :: c in r <==> c in comments && c.projectId == projectId && (includePrivate || c.isPublic)
    ensures |r| <= |comments|
  {
    if comments == [] then []
    else
      var c := comments[0];
      (if c.projectId == projectId && (includePrivate || c.isPublic) then [c] else [])
      + ProjectComments(comments[1..], projectId, includePrivate)
  }

  /** The listing distributes over concatenation, so listed comments keep their stored order and their copies. */
  lemma {:induction false} ProjectCommentsConcat(a: seq<ProjectComment>, b: seq<ProjectComment>, x: ProjectComment, projectId: string, includePrivate: bool)
    ensures ProjectComments(a + b, projectId, includePrivate) == ProjectComments(a, projectId, includePrivate) + ProjectComments(b, projectId, includePrivate)
    ensures ProjectComments([x], projectId, includePrivate) == if x.projectId == projectId && (includePrivate || x.isPublic) then [x] else []
  {
    if a == [] {
      assert a + b == b;
    } else {
      assert (a + b)[1..] == a[1..] + b;
      ProjectCommentsConcat(a[1..], b, x, projectId, includePrivate);
    }
    assert [x][1..] == [];
  }

  /** The comments of a listing that are public, in the listing's order. */
  function PublicOnly(comments: seq<ProjectComment>): seq<ProjectComment> {
    if comments == [] then []
    else (if comments[0].isPublic then [comments[0]] else []) + PublicOnly(comments[1..])
  }

  /**
   * The public listing is the full listing with its private comments dropped, so it is a
   * subsequence of it, no longer, and the two agree when no comment is private.
   */
  lemma {:induction false} PublicCommentsAreSubsequence(comments: seq<ProjectComment>, projectId: string)
    ensures ProjectComments(comments, projectId, false) == PublicOnly(ProjectComments(comments, projectId, true))
    ensures |ProjectComments(comments, projectId, false)| <= |ProjectComments(comments, projectId, true)|
    ensures (forall i :: 0 <= i < |comments| ==> comments[i].isPublic) ==>
              ProjectComments(comments, projectId, false) == ProjectComments(comments, projectId, true)
  {
    if comments != [] {
      PublicCommentsAreSubsequence(comments[1..], projectId);
      assert forall i :: 1 <= i < |comments| ==> comments[1..][i - 1] == comments[i];
      var c := comments[0];
      var full := ProjectComments(comments, projectId, true);
      var rest := ProjectComments(comments[1..], projectId, true);
      if c.projectId == projectId {
        assert full == [c] + rest && full[1..] == rest;
        assert PublicOnly(full) == (if c.isPublic then [c] else []) + PublicOnly(rest);
      } else {
        assert full == rest;
      }
    }
  }
}
