/** The employee controller: an in-memory list of employees with read,
    create, update and delete actions, each guarded by the roles its
    authorization requirement names. */
module Controllers {
  import opened Options
  import opened Principals
  import Sequences

  datatype Employee = Employee(id: int, name: string, department: string, salary: int)

  /** The list the controller's constructor installs. */
  function SeedEmployees(): seq<Employee>
  {
    [ Employee(1, "Shahid Kapoor", "IT", 1200000),
      Employee(2, "Alia Bhat", "Finance", 800000),
      Employee(3, "Ranveer Singh", "Marketing", 700000),
      Employee(4, "Sara Ali Khan", "HR", 900000),
      Employee(5, "Ranbir Kapoor", "R&D", 1000000) ]
  }

  /** What an action answers, reduced to the status and the body. */
  datatype ActionResult =
    | Ok
    | OkCurrentUser(username: Option<string>, isAdmin: bool)
    | OkEmployees(employees: seq<Employee>)
    | OkEmployee(employee: Employee)
    | Created(employee: Employee)
    | NotFound
    | Unauthorized

  /** The controller's actions. */
  datatype Endpoint =
    | CurrentUser
    | ListEmployees
    | ReadEmployee
    | CreateEmployee
    | UpdateEmployee
    | DeleteEmployee

  // ---------------------------------------------------------------------
  // The role gate

  /** The roles each action's authorization requirement lists. */
  function RequiredRoles(endpoint: Endpoint): set<string>
  {
    match endpoint
    case CurrentUser => {"Admin", "Hr", "User"}
    case ListEmployees => {"Admin", "Hr"}
    case ReadEmployee => {"Admin", "Hr", "User"}
    case CreateEmployee => {"Hr"}
    case UpdateEmployee => {"Hr"}
    case DeleteEmployee => {"Hr"}
  }

  /** The authorization requirement: an authenticated principal that is in at
      least one of the listed roles. */
  predicate Allowed(principal: Option<Principal>, endpoint: Endpoint)
  {
    principal.Some? && IsAuthenticated(principal.value) &&
    exists r :: r in RequiredRoles(endpoint) && IsInRole(principal.value, r)
  }

  /** The requirement of each action, spelled out by role name. */
  lemma RoleGate(p: Principal)
    ensures Allowed(Some(p), ListEmployees) <==>
      IsAuthenticated(p) && (IsInRole(p, "Admin") || IsInRole(p, "Hr"))
    ensures Allowed(Some(p), CurrentUser) == Allowed(Some(p), ReadEmployee)
    ensures Allowed(Some(p), ReadEmployee) <==>
      IsAuthenticated(p) && (IsInRole(p, "Admin") || IsInRole(p, "Hr") || IsInRole(p, "User"))
    ensures Allowed(Some(p), CreateEmployee) == Allowed(Some(p), UpdateEmployee) == Allowed(Some(p), DeleteEmployee)
    ensures Allowed(Some(p), DeleteEmployee) <==> IsAuthenticated(p) && IsInRole(p, "Hr")
    ensures !Allowed(None, ListEmployees) && !Allowed(None, CurrentUser) && !Allowed(None, ReadEmployee)
    ensures !Allowed(None, CreateEmployee) && !Allowed(None, UpdateEmployee) && !Allowed(None, DeleteEmployee)
  {
    if IsInRole(p, "Admin") {
      assert "Admin" in RequiredRoles(ListEmployees) && "Admin" in RequiredRoles(ReadEmployee);
    }
    if IsInRole(p, "Hr") {
      assert "Hr" in RequiredRoles(ListEmployees) && "Hr" in RequiredRoles(ReadEmployee);
      assert "Hr" in RequiredRoles(DeleteEmployee);
    }
    if IsInRole(p, "User") {
      assert "User" in RequiredRoles(ReadEmployee);
    }
  }

  /** `GetCurrentUser`: no principal is unauthorized; otherwise the identity
      name and whether the principal is in the Admin role. */
  function GetCurrentUser(principal: Option<Principal>): (r: ActionResult)
    ensures r == Unauthorized <==> principal.None?
    ensures principal.Some? ==>
      r.OkCurrentUser? && r.username == Name(principal.value) &&
      (r.isAdmin <==> IsInRole(principal.value, "Admin"))
  {
    match principal
    case None => Unauthorized
    case Some(p) => OkCurrentUser(Name(p), IsInRole(p, "Admin"))
  }

  // ---------------------------------------------------------------------
  // The record store

  /** Index of the first employee with this id. */
  function FindById(employees: seq<Employee>, id: int): Option<nat>
  {
    Sequences.FirstIndex(employees, (e: Employee) => e.id == id)
  }

  /** No two employees share an id. */
  predicate UniqueIds(employees: seq<Employee>)
  {
    forall i, j :: 0 <= i < j < |employees| ==> employees[i].id != employees[j].id
  }

  /** After the first employee with `id` is removed from a list with unique
      ids, no employee with that id is left. */
  lemma RemoveFoundLeavesNone(employees: seq<Employee>, id: int)
    requires UniqueIds(employees) && FindById(employees, id).Some?
    ensures FindById(Sequences.RemoveAt(employees, FindById(employees, id).value), id).None?
    ensures UniqueIds(Sequences.RemoveAt(employees, FindById(employees, id).value))
  {
    var i := FindById(employees, id).value;
    var rest := Sequences.RemoveAt(employees, i);
    forall k | 0 <= k < |rest|
      ensures rest[k].id != id
    {
      if k >= i {
        assert rest[k] == employees[k + 1];
        assert employees[i].id != employees[k + 1].id;
      }
    }
    forall a, b | 0 <= a < b < |rest|
      ensures rest[a].id != rest[b].id
    {
      var a' := if a < i then a else a + 1;
      var b' := if b < i then b else b + 1;
      assert rest[a] == employees[a'] && rest[b] == employees[b'];
    }
  }

  class EmployeeController {
    var employees: seq<Employee>

    constructor ()
      ensures employees == SeedEmployees()
    {
      employees := SeedEmployees();
    }

    /** `GetEmployees`: the whole list, which it does not change. */
    method GetEmployees() returns (r: ActionResult)
      ensures r == OkEmployees(employees)
    {
      r := OkEmployees(employees);
    }

    /** `GetEmployee`: the first employee with `id`, or NotFound exactly when
      there is none. */
    method GetEmployee(id: int) returns (r: ActionResult)
      ensures r.NotFound? <==> forall k :: 0 <= k < |employees| ==> employees[k].id != id
      ensures r.NotFound? || r.OkEmployee?
      ensures r.OkEmployee? ==> exists i :: 0 <= i < |employees| && r.employee == employees[i]
                                  && r.employee.id == id
                                  && forall j :: 0 <= j < i ==> employees[j].id != id
    {
      var i := FindById(employees, id);
      if i.None? {
        return NotFound;
      }
      return OkEmployee(employees[i.value]);
    }

    /** `Post`: appends the employee and answers Created. */
    method Post(employee: Employee) returns (r: ActionResult)
      modifies this
      ensures employees == old(employees) + [employee]
      ensures r == Created(employee)
    {
      employees := employees + [employee];
      r := Created(employee);
    }

    /** `Put`: answers Ok and changes nothing. */
    method Put(id: int, employee: Employee) returns (r: ActionResult)
      ensures r == Ok
    {
      r := Ok;
    }

    /** `Delete`: NotFound with the list untouched when no employee has `id`;
      otherwise exactly the first such employee is removed. */
    method Delete(id: int) returns (r: ActionResult)
      modifies this
      ensures r == NotFound <==> forall k :: 0 <= k < |old(employees)| ==> old(employees)[k].id != id
      ensures r == NotFound ==> employees == old(employees)
      ensures r != NotFound ==>
        r == Ok &&
        var i := FindById(old(employees), id).value;
        i < |old(employees)| && old(employees)[i].id == id &&
        employees == Sequences.RemoveAt(old(employees), i)
    {
      var i := FindById(employees, id);
      if i.None? {
        return NotFound;
      }
      employees := Sequences.RemoveAt(employees, i.value);
      return Ok;
    }
  }

  /** Deleting the same id twice on one controller whose ids are unique: the
      second call answers NotFound, whatever the first did. */
  method DeleteTwice(controller: EmployeeController, id: int) returns (first: ActionResult, second: ActionResult)
    requires UniqueIds(controller.employees)
    modifies controller
    ensures second == NotFound
    ensures first == NotFound ==> controller.employees == old(controller.employees)
    ensures first != NotFound ==> |controller.employees| == |old(controller.employees)| - 1
  {
    first := controller.Delete(id);
    if first != NotFound {
      RemoveFoundLeavesNone(old(controller.employees), id);
    }
    second := controller.Delete(id);
  }
}
