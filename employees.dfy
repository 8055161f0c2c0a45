/**
 * client/src/pages/Employees.tsx: the employee directory page. It keeps the employee list,
 * the add-dialog draft and the search and status filters; adding appends a record built
 * from the draft, deleting filters the list by id, and the summary cards count and sum.
 * The join date (today's date) is an input.
 */
module Employees {
  import opened Wrappers
  import opened Text

  datatype Employee = Employee(
    id: string,
    employeeId: string,
    name: string,
    email: string,
    phone: string,
    department: string,
    position: string,
    status: string,
    joinDate: string,
    salary: real)

  const InitialEmployees: seq<Employee> := [
    Employee("1", "EMP-001", "John Doe", "john.doe@melitechsolutions.co.ke", "+254 712 345 678",
             "Engineering", "Senior Developer", "active", "2023-01-15", 150000.0),
    Employee("2", "EMP-002", "Jane Smith", "jane.smith@melitechsolutions.co.ke", "+254 723 456 789",
             "Sales", "Sales Manager", "active", "2023-03-20", 120000.0),
    Employee("3", "EMP-003", "Michael Johnson", "michael.j@melitechsolutions.co.ke", "+254 734 567 890",
             "Finance", "Accountant", "on-leave", "2023-06-10", 100000.0),
    Employee("4", "EMP-004", "Sarah Williams", "sarah.w@melitechsolutions.co.ke", "+254 745 678 901",
             "HR", "HR Manager", "active", "2022-11-05", 110000.0)
  ]

  /** The add-dialog draft, a partial employee. */
  datatype Draft = Draft(
    name: Option<string>,
    email: Option<string>,
    phone: Option<string>,
    department: Option<string>,
    position: Option<string>,
    status: Option<string>,
    salary: Option<real>)

  /** The draft the dialog starts from, and returns to after an add. */
  const FreshDraft: Draft := Draft(None, None, None, None, None, Some("active"), None)

  /** JavaScript truthiness of an optional text field. */
  predicate Filled(s: Option<string>) { s.Some? && s.value != "" }

  function TextOr(s: Option<string>, default: string): string {
    if Filled(s) then s.value else default
  }

  /** The required fields are name, e-mail and department. */
  predicate Complete(d: Draft) {
    Filled(d.name) && Filled(d.email) && Filled(d.department)
  }

  /** The record added for the draft when it takes number n. */
  function NewEmployee(d: Draft, n: nat, today: string): (e: Employee)
    requires Complete(d)
    ensures e.id == Digits(n) && e.employeeId == "EMP-" + PadStart(Digits(n), 3, '0')
    ensures e.name == d.name.value && e.email == d.email.value && e.department == d.department.value
    ensures e.phone == TextOr(d.phone, "") && e.position == TextOr(d.position, "")
    ensures e.status == TextOr(d.status, "active") && e.joinDate == today
    ensures e.salary == (if d.salary.Some? then d.salary.value else 0.0)
  {
    Employee(Digits(n), "EMP-" + PadStart(Digits(n), 3, '0'), d.name.value, d.email.value, TextOr(d.phone, ""),
             d.department.value, TextOr(d.position, ""), TextOr(d.status, "active"), today,
             if d.salary.Some? then d.salary.value else 0.0)
  }

  /** The employee number and the display number agree: "EMP-" and at least three digits that read back as n. */
  lemma EmployeeIdShape(n: nat)
    ensures var eid := "EMP-" + PadStart(Digits(n), 3, '0');
            eid[..4] == "EMP-" && |eid| >= 7 && ParseInt(eid[4..]) == Some(n)
  {
    var eid := "EMP-" + PadStart(Digits(n), 3, '0');
    assert eid[4..] == PadStart(Digits(n), 3, '0');
    ParseIntOfPadded(n, 3);
  }

  // ---------------------------------------------------------------- ids

  predicate DistinctIds(es: seq<Employee>) {
    forall i, j :: 0 <= i < j < |es| ==> es[i].id != es[j].id
  }

  /** The number an id stands for; 0 for an id that is not a number. */
  function IdValue(e: Employee): int {
    match ParseInt(e.id)
    case Some(v) => v
    case None => 0
  }

  /** The id numbers of the list, in order. */
  function IdValues(es: seq<Employee>): (vs: seq<int>)
    ensures |vs| == |es| && forall i :: 0 <= i < |es| ==> vs[i] == IdValue(es[i])
  {
    seq(|es|, i requires 0 <= i < |es| => IdValue(es[i]))
  }

  /** The largest of the numbers, at least 0. */
  function MaxOf(vs: seq<int>): (m: nat)
    ensures forall i :: 0 <= i < |vs| ==> vs[i] <= m
  {
    if vs == [] then 0
    else
      var rest := MaxOf(vs[1..]);
      assert forall i :: 1 <= i < |vs| ==> vs[i] == vs[1..][i - 1];
      if vs[0] > rest then vs[0] else rest
  }

  /** The largest id number in the list, at least 0. */
  function MaxId(es: seq<Employee>): (m: nat)
    ensures forall i :: 0 <= i < |es| ==> IdValue(es[i]) <= m
  {
    MaxOf(IdValues(es))
  }

  /** The id the page gives a new employee: one more than the list's length. */
  function NextIdAsWritten(es: seq<Employee>): nat { |es| + 1 }

  /** One more than the largest id in use. */
  function NextId(es: seq<Employee>): (n: nat)
    ensures n >= 1
    ensures forall i :: 0 <= i < |es| ==> es[i].id != Digits(n)
  {
    var n := MaxId(es) + 1;
    ParseIntOfDigits(n);
    assert forall i :: 0 <= i < |es| ==> ParseInt(es[i].id) != Some(n) by {
      forall i | 0 <= i < |es| ensures ParseInt(es[i].id) != Some(n) {
        assert IdValue(es[i]) <= MaxId(es);
      }
    }
    n
  }

  /** On the page's own numbering (ids "1" to "n") the two rules agree. */
  lemma NextIdOnSequentialIds(es: seq<Employee>)
    requires forall i :: 0 <= i < |es| ==> es[i].id == Digits(i + 1)
    ensures NextId(es) == NextIdAsWritten(es)
  {
    forall i | 0 <= i < |es| ensures IdValue(es[i]) == i + 1 {
      ParseIntOfDigits(i + 1);
    }
    if es != [] {
      assert IdValue(es[|es| - 1]) == |es|;
      MaxIdAtMost(es, |es|);
    }
  }

  lemma {:induction false} MaxOfAtMost(vs: seq<int>, bound: nat)
    requires forall i :: 0 <= i < |vs| ==> vs[i] <= bound
    ensures MaxOf(vs) <= bound
  {
    if vs != [] {
      assert forall i :: 0 <= i < |vs[1..]| ==> vs[1..][i] == vs[i + 1];
      MaxOfAtMost(vs[1..], bound);
    }
  }

  lemma MaxIdAtMost(es: seq<Employee>, bound: nat)
    requires forall i :: 0 <= i < |es| ==> IdValue(es[i]) <= bound
    ensures MaxId(es) <= bound
  {
    MaxOfAtMost(IdValues(es), bound);
  }

  // ---------------------------------------------------------------- add and delete

  /** `handleAddEmployee` as written: an incomplete draft changes nothing; otherwise append with id length + 1. */
  function AddedAsWritten(es: seq<Employee>, d: Draft, today: string): (r: seq<Employee>)
    ensures !Complete(d) ==> r == es
    ensures Complete(d) ==> r == es + [NewEmployee(d, |es| + 1, today)]
  {
    if !Complete(d) then es else es + [NewEmployee(d, NextIdAsWritten(es), today)]
  }

  /** The same add, numbering the new employee after the largest id in use. */
  function Added(es: seq<Employee>, d: Draft, today: string): (r: seq<Employee>)
    ensures !Complete(d) ==> r == es
    ensures Complete(d) ==> |r| == |es| + 1 && r[..|es|] == es && r[|es|] == NewEmployee(d, NextId(es), today)
  {
    if !Complete(d) then es else es + [NewEmployee(d, NextId(es), today)]
  }

  /** Adding keeps the ids distinct. */
  lemma AddedKeepsDistinctIds(es: seq<Employee>, d: Draft, today: string)
    requires DistinctIds(es)
    ensures DistinctIds(Added(es, d, today))
  {
    if Complete(d) {
      var r := Added(es, d, today);
      forall i, j | 0 <= i < j < |r| ensures r[i].id != r[j].id {
        if j == |es| {
          assert r[i] == es[i];
        } else {
          assert r[i] == es[i] && r[j] == es[j];
        }
      }
    }
  }

  /** The delete callback: `employees.filter(emp => emp.id !== id)`. */
  function Deleted(es: seq<Employee>, id: string): (r: seq<Employee>)
    ensures |r| <= |es|
    ensures forall i :: 0 <= i < |r| ==> r[i].id != id
  {
    if es == [] then []
    else (if es[0].id != id then [es[0]] else []) + Deleted(es[1..], id)
  }

  /** Deleting distributes over concatenation: the other employees remain, in order, each as often as before. */
  lemma {:induction false} DeletedConcat(a: seq<Employee>, b: seq<Employee>, x: Employee, id: string)
    ensures Deleted(a + b, id) == Deleted(a, id) + Deleted(b, id)
    ensures Deleted([x], id) == if x.id != id then [x] else []
  {
    if a == [] {
      assert a + b == b;
    } else {
      assert (a + b)[1..] == a[1..] + b;
      DeletedConcat(a[1..], b, x, id);
    }
    assert [x][1..] == [];
  }

  /** Exactly the employees without the id remain. */
  lemma {:induction false} DeletedMembers(es: seq<Employee>, id: string)
    ensures forall e :: e in Deleted(es, id) <==> e in es && e.id != id
  {
    if es != [] {
      DeletedMembers(es[1..], id);
      assert es == [es[0]] + es[1..];
    }
  }

  lemma {:induction false} DeletedKeepsDistinctIds(es: seq<Employee>, id: string)
    requires DistinctIds(es)
    ensures DistinctIds(Deleted(es, id))
  {
    if es != [] {
      var t := es[1..];
      assert DistinctIds(t) by {
        forall i, j | 0 <= i < j < |t| ensures t[i].id != t[j].id { assert t[i] == es[i + 1] && t[j] == es[j + 1]; }
      }
      DeletedKeepsDistinctIds(t, id);
      DeletedMembers(t, id);
      var rest := Deleted(t, id);
      if es[0].id != id {
        var r := [es[0]] + rest;
        forall k | 0 <= k < |rest| ensures rest[k].id != es[0].id {
          assert rest[k] in t;
          var m :| 0 <= m < |t| && t[m] == rest[k];
          assert t[m] == es[m + 1];
        }
        forall i, j | 0 <= i < j < |r| ensures r[i].id != r[j].id {
          if i == 0 {
            assert r[j] == rest[j - 1];
          } else {
            assert r[i] == rest[i - 1] && r[j] == rest[j - 1];
          }
        }
      }
    }
  }

  /** Deleting looks at the head first: it stays unless it has the id. */
  lemma DeletedCons(e: Employee, rest: seq<Employee>, id: string)
    ensures Deleted([e] + rest, id) == (if e.id != id then [e] else []) + Deleted(rest, id)
  {
    assert ([e] + rest)[1..] == rest;
  }

  /** Deleting the id of the second of four employees, when the others carry other ids, leaves the other three. */
  lemma DeleteSecondOfFour(a: Employee, b: Employee, c: Employee, d: Employee, id: string)
    requires a.id != id && b.id == id && c.id != id && d.id != id
    ensures Deleted([a, b, c, d], id) == [a, c, d]
  {
    DeletedCons(d, [], id);
    DeletedCons(c, [d], id);
    DeletedCons(b, [c, d], id);
    DeletedCons(a, [b, c, d], id);
    assert [a] + [b, c, d] == [a, b, c, d] && [b] + [c, d] == [b, c, d] && [c] + [d] == [c, d] && [d] + [] == [d];
  }

  /** The list left after deleting employee "2" from the initial four. */
  lemma DeleteSecondInitial()
    ensures Deleted(InitialEmployees, "2") == [InitialEmployees[0], InitialEmployees[2], InitialEmployees[3]]
  {
    var es := InitialEmployees;
    assert es == [es[0], es[1], es[2], es[3]];
    assert es[0].id == "1" && es[1].id == "2" && es[2].id == "3" && es[3].id == "4";
    DeleteSecondOfFour(es[0], es[1], es[2], es[3], "2");
  }

  /** An employee already numbered like the next length-based add is repeated by it. */
  lemma LengthIdCollides(es: seq<Employee>, d: Draft, today: string, k: int)
    requires Complete(d) && 0 <= k < |es|
    requires es[k].id == Digits(|es| + 1) && es[k].employeeId == "EMP-" + PadStart(Digits(|es| + 1), 3, '0')
    ensures var r := AddedAsWritten(es, d, today);
            |r| == |es| + 1 && r[k].id == r[|es|].id && r[k].employeeId == r[|es|].employeeId && !DistinctIds(r)
  {
    var r := AddedAsWritten(es, d, today);
    assert r[k] == es[k];
  }

  lemma NumberFour()
    ensures Digits(4) == "4" && "EMP-" + PadStart(Digits(4), 3, '0') == "EMP-004"
  {
    var p := PadStart("4", 3, '0');
    assert p[2..] == "4";
    assert p == [p[0], p[1], p[2]];
  }

  /**
   * After a delete, the length-based id repeats one still in use: from the four initial
   * employees, deleting "2" and adding gives a second employee "4" and a second "EMP-004".
   */
  lemma IdReusedAfterDelete(d: Draft, today: string)
    requires Complete(d)
    ensures var r := AddedAsWritten(Deleted(InitialEmployees, "2"), d, today);
            |r| == 4 && r[2].id == "4" && r[3].id == "4" && r[2].employeeId == r[3].employeeId
            && !DistinctIds(r)
  {
    DeleteSecondInitial();
    var es := [InitialEmployees[0], InitialEmployees[2], InitialEmployees[3]];
    NumberFour();
    assert es[2].id == "4" && es[2].employeeId == "EMP-004";
    LengthIdCollides(es, d, today, 2);
  }

  /** The id number of a decimal id. */
  lemma IdValueOfDigits(e: Employee, n: nat)
    requires e.id == Digits(n)
    ensures IdValue(e) == n
  {
    ParseIntOfDigits(n);
  }

  /** The largest id left after deleting "2" from the initial four is 4. */
  lemma MaxIdAfterDelete()
    ensures MaxId([InitialEmployees[0], InitialEmployees[2], InitialEmployees[3]]) == 4
  {
    var es := [InitialEmployees[0], InitialEmployees[2], InitialEmployees[3]];
    assert Digits(1) == "1" && Digits(3) == "3" && Digits(4) == "4";
    IdValueOfDigits(es[0], 1);
    IdValueOfDigits(es[1], 3);
    IdValueOfDigits(es[2], 4);
    MaxIdAtMost(es, 4);
  }

  /** The corrected add numbers one past the largest id. */
  lemma AddedAfterMax(es: seq<Employee>, d: Draft, today: string)
    requires Complete(d)
    ensures Added(es, d, today)[|es|].id == Digits(MaxId(es) + 1)
  {
  }

  /** The corrected rule numbers the same add 5. */
  lemma FreshIdAfterDelete(d: Draft, today: string)
    requires Complete(d)
    ensures Added(Deleted(InitialEmployees, "2"), d, today)[3].id == "5"
  {
    DeleteSecondInitial();
    var es := [InitialEmployees[0], InitialEmployees[2], InitialEmployees[3]];
    MaxIdAfterDelete();
    AddedAfterMax(es, d, today);
    assert Digits(5) == "5";
  }

  // ---------------------------------------------------------------- filter and summary

  predicate MatchesSearch(e: Employee, query: string) {
    var q := Lower(query);
    Contains(Lower(e.name), q) || Contains(Lower(e.employeeId), q) || Contains(Lower(e.email), q)
    || Contains(Lower(e.department), q)
  }

  predicate Passes(e: Employee, query: string, statusFilter: string) {
    MatchesSearch(e, query) && (statusFilter == "all" || e.status == statusFilter)
  }

  /** `filteredEmployees`: the passing employees, in list order. */
  function Filtered(es: seq<Employee>, query: string, statusFilter: string): (r: seq<Employee>)
    ensures |r| <= |es|
    ensures forall e :: e in r <==> e in es && Passes(e, query, statusFilter)
  {
    if es == [] then []
    else (if Passes(es[0], query, statusFilter) then [es[0]] else []) + Filtered(es[1..], query, statusFilter)
  }

  /** Filtering distributes over concatenation, so the shown employees keep their order and their copies. */
  lemma {:induction false} FilteredConcat(a: seq<Employee>, b: seq<Employee>, query: string, statusFilter: string)
    ensures Filtered(a + b, query, statusFilter) == Filtered(a, query, statusFilter) + Filtered(b, query, statusFilter)
  {
    if a == [] {
      assert a + b == b;
    } else {
      var ab := a + b;
      assert ab[0] == a[0] && ab[1..] == a[1..] + b;
      FilteredConcat(a[1..], b, query, statusFilter);
      var head := if Passes(a[0], query, statusFilter) then [a[0]] else [];
      assert Filtered(ab, query, statusFilter) == head + Filtered(a[1..] + b, query, statusFilter);
      assert Filtered(a, query, statusFilter) == head + Filtered(a[1..], query, statusFilter);
    }
  }

  /** A single employee is shown exactly when it passes the search and the status filter. */
  lemma FilteredSingle(x: Employee, query: string, statusFilter: string)
    ensures Filtered([x], query, statusFilter) == if Passes(x, query, statusFilter) then [x] else []
  {
    assert [x][1..] == [];
  }

  /** With an empty search and "all" statuses the whole list is shown, in order. */
  lemma {:induction false} UnfilteredShowsAll(es: seq<Employee>)
    ensures Filtered(es, "", "all") == es
  {
    if es != [] {
      ContainsTrivial(Lower(es[0].name));
      UnfilteredShowsAll(es[1..]);
      assert [es[0]] + es[1..] == es;
    }
  }

  /** How many employees have the status. */
  function CountStatus(es: seq<Employee>, status: string): (n: nat)
    ensures n <= |es|
  {
    if es == [] then 0 else (if es[0].status == status then 1 else 0) + CountStatus(es[1..], status)
  }

  /** `employees.reduce((sum, e) => sum + e.salary, 0)`: a fold from the left. */
  function TotalSalary(es: seq<Employee>): real {
    if es == [] then 0.0 else TotalSalary(es[..|es| - 1]) + es[|es| - 1].salary
  }

  lemma {:induction false} CountStatusAppend(es: seq<Employee>, e: Employee, status: string)
    ensures CountStatus(es + [e], status) == CountStatus(es, status) + (if e.status == status then 1 else 0)
  {
    if es != [] {
      assert (es + [e])[1..] == es[1..] + [e];
      CountStatusAppend(es[1..], e, status);
    }
  }

  /** Adding an employee raises the total salary by its salary and the active count by one when it is active. */
  lemma AddUpdatesSummary(es: seq<Employee>, d: Draft, today: string)
    requires Complete(d)
    ensures var r := Added(es, d, today);
            var e := r[|es|];
            && TotalSalary(r) == TotalSalary(es) + e.salary
            && CountStatus(r, "active") == CountStatus(es, "active") + (if e.status == "active" then 1 else 0)
  {
    var r := Added(es, d, today);
    assert r == es + [r[|es|]];
    assert r[..|r| - 1] == es;
    CountStatusAppend(es, r[|es|], "active");
  }

  /** A fresh draft adds an active employee. */
  lemma FreshDraftIsActive(d: Draft, n: nat, today: string)
    requires Complete(d) && d.status == FreshDraft.status
    ensures NewEmployee(d, n, today).status == "active"
  {
  }

  /** Deleting never raises a status count. */
  lemma {:induction false} DeleteLowersCounts(es: seq<Employee>, id: string, status: string)
    ensures CountStatus(Deleted(es, id), status) <= CountStatus(es, status)
  {
    if es != [] {
      DeleteLowersCounts(es[1..], id, status);
      var rest := Deleted(es[1..], id);
      if es[0].id != id {
        assert ([es[0]] + rest)[1..] == rest;
      } else {
        assert Deleted(es, id) == rest;
      }
    }
  }

  // ---------------------------------------------------------------- the page state

  class EmployeesPage {
    var employees: seq<Employee>
    var newEmployee: Draft
    var isAddDialogOpen: bool
    var searchQuery: string
    var statusFilter: string

    /** Employee ids are distinct. */
    predicate Valid()
      reads this
    {
      DistinctIds(employees)
    }

    constructor()
      ensures Valid()
      ensures employees == InitialEmployees && newEmployee == FreshDraft
      ensures !isAddDialogOpen && searchQuery == "" && statusFilter == "all"
    {
      employees := InitialEmployees;
      newEmployee := FreshDraft;
      isAddDialogOpen := false;
      searchQuery := "";
      statusFilter := "all";
    }

    function Shown(): seq<Employee>
      reads this
    {
      Filtered(employees, searchQuery, statusFilter)
    }

    /** `handleAddEmployee` as the page wires it (ids from the list length). */
    method HandleAddEmployeeAsWritten(today: string) returns (added: bool)
      modifies this`employees, this`newEmployee, this`isAddDialogOpen
      ensures added <==> Complete(old(newEmployee))
      ensures employees == AddedAsWritten(old(employees), old(newEmployee), today)
      ensures added ==> newEmployee == FreshDraft && !isAddDialogOpen
      ensures !added ==> newEmployee == old(newEmployee) && isAddDialogOpen == old(isAddDialogOpen)
    {
      var d := newEmployee;
      if !Filled(d.name) || !Filled(d.email) || !Filled(d.department) {
        return false;
      }
      var n := |employees| + 1;
      employees := employees + [NewEmployee(d, n, today)];
      isAddDialogOpen := false;
      newEmployee := Draft(None, None, None, None, None, Some("active"), None);
      added := true;
    }

    /** The add numbering the new employee after the largest id in use. */
    method HandleAddEmployee(today: string) returns (added: bool)
      requires Valid()
      modifies this`employees, this`newEmployee, this`isAddDialogOpen
      ensures Valid()
      ensures added <==> Complete(old(newEmployee))
      ensures employees == Added(old(employees), old(newEmployee), today)
      ensures added ==> newEmployee == FreshDraft && !isAddDialogOpen
      ensures !added ==> newEmployee == old(newEmployee) && isAddDialogOpen == old(isAddDialogOpen)
    {
      var d := newEmployee;
      if !Filled(d.name) || !Filled(d.email) || !Filled(d.department) {
        return false;
      }
      AddedKeepsDistinctIds(employees, d, today);
      employees := employees + [NewEmployee(d, NextId(employees), today)];
      isAddDialogOpen := false;
      newEmployee := Draft(None, None, None, None, None, Some("active"), None);
      added := true;
    }

    /** The confirmed delete: every employee with the id goes, the rest keep their order. */
    method Delete(id: string)
      requires Valid()
      modifies this`employees
      ensures Valid()
      ensures employees == Deleted(old(employees), id)
    {
      DeletedKeepsDistinctIds(employees, id);
      employees := Deleted(employees, id);
    }
  }
}
