/**
 * server/routers/users.ts: the role gates in front of the user-management procedures, the
 * department access check, comment visibility by role and the input defaults.
 */
module UsersRouter {
  import opened Wrappers
  import opened Schema
  import opened DbUsers

  /** What a gate does with a request: let it through, or throw FORBIDDEN with a message. */
  datatype Outcome = Allowed | Forbidden(message: string)

  function AdminGate(role: string): (r: Outcome)
    ensures r == Allowed <==> role == "admin" || role == "super_admin"
  {
    if role != "admin" && role != "super_admin" then Forbidden("Admin access required") else Allowed
  }

  function ClientGate(role: string): (r: Outcome)
    ensures r == Allowed <==> role == "client"
  {
    if role != "client" then Forbidden("Client access required") else Allowed
  }

  function StaffGate(role: string): (r: Outcome)
    ensures r == Allowed <==> role in {"staff", "admin", "super_admin"}
  {
    if role != "staff" && role != "admin" && role != "super_admin" then Forbidden("Staff access required") else Allowed
  }

  function AccountantGate(role: string): (r: Outcome)
    ensures r == Allowed <==> role in {"accountant", "admin", "super_admin"}
  {
    if role != "accountant" && role != "admin" && role != "super_admin" then Forbidden("Accountant access required") else Allowed
  }

  /** Whoever passes the admin gate passes the staff and accountant gates; a client passes only its own gate. */
  lemma GateOrdering(role: string)
    ensures AdminGate(role) == Allowed ==> StaffGate(role) == Allowed && AccountantGate(role) == Allowed
    ensures ClientGate(role) == Allowed ==>
              AdminGate(role).Forbidden? && StaffGate(role).Forbidden? && AccountantGate(role).Forbidden?
    ensures StaffGate(role) == Allowed && AccountantGate(role) == Allowed ==> AdminGate(role) == Allowed
  {
  }

  /**
   * `departmentTasks` and `departmentMembers`: the staff gate, then the caller's own row must
   * name the requested department unless the caller is an admin. A caller with no row or no
   * department is refused.
   */
  function DepartmentAccess(role: string, caller: Option<User>, department: string): (r: Outcome)
    ensures r == Allowed <==>
              && role in {"staff", "admin", "super_admin"}
              && (IsAdminRole(role) || (caller.Some? && caller.value.department == Some(department)))
  {
    if StaffGate(role).Forbidden? then StaffGate(role)
    else
      var callerDepartment := if caller.Some? then caller.value.department else None;
      if callerDepartment != Some(department) && role != "admin" && role != "super_admin" then
        Forbidden("Cannot access other departments")
      else Allowed
  }

  /** A staff member reaches exactly one department: their own. */
  lemma StaffSeesOnlyOwnDepartment(caller: User, d1: string, d2: string)
    requires DepartmentAccess("staff", Some(caller), d1) == Allowed
    requires DepartmentAccess("staff", Some(caller), d2) == Allowed
    ensures d1 == d2 && caller.department == Some(d1)
  {
  }

  /** `getProjectComments`: private comments are included for every role except client. */
  function VisibleComments(role: string, comments: seq<ProjectComment>, projectId: string): (r: seq<ProjectComment>)
    ensures forall c :: c in r <==> c in comments && c.projectId == projectId && (role != "client" || c.isPublic)
  {
    ProjectComments(comments, projectId, role != "client")
  }

  /** A client never sees a private comment; every other role sees every comment of the project. */
  lemma ClientSeesOnlyPublic(role: string, comments: seq<ProjectComment>, projectId: string, c: ProjectComment)
    requires c in comments && c.projectId == projectId
    ensures c in VisibleComments(role, comments, projectId) <==> role != "client" || c.isPublic
  {
  }

  datatype ProjectRole = ProjectManager | TeamLead | Developer | Designer | Qa | Other

  /** `assignToProject`: the role given, or developer. */
  function AssignmentRole(role: Option<ProjectRole>): (r: ProjectRole)
    ensures role.None? ==> r == Developer
    ensures role.Some? ==> r == role.value
  {
    role.GetOr(Developer)
  }

  /** `createStaffTask`: the priority given, or medium. */
  function TaskPriority(priority: Option<Priority>): (r: Priority)
    ensures priority.None? ==> r == Medium
    ensures priority.Some? ==> r == priority.value
  {
    priority.GetOr(Medium)
  }
}
