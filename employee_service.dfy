/**
 * The in-memory employee store: a map from UUID to employee object, seeded with five
 * employees, read by UUID or as a whole, and written by `createEmployee`, which fills in a
 * missing UUID or hire date on the employee it is given and then stores that same object.
 */
module EmployeeStore {
  import opened Common

  /** The constructor arguments of an employee other than its UUID. */
  datatype EmployeeDetails = EmployeeDetails(firstName: string, lastName: string, salary: int, jobTitle: string, email: string)

  /** The five employees `createEmployees` seeds, in order. */
  const Seeds: seq<EmployeeDetails> := [
    EmployeeDetails("Anthony", "Apicella", 100000, "Manager", "anthonyap@gmail.com"),
    EmployeeDetails("Charles", "Wattick", 90000, "Salesman", "charleswa@gmail.com"),
    EmployeeDetails("Benjamin", "Mapp", 80000, "Software Engineer", "benjaminma@gmail.com"),
    EmployeeDetails("Aidan", "Fecteau", 200000, "CEO", "aidanfe@gmail.com"),
    EmployeeDetails("Peter", "Chelap", 50000, "Accountant", "peterche@gmail.com")
  ]

  /** An employee record whose UUID and contract hire date can be set after construction. */
  class Employee {
    var firstName: string
    var lastName: string
    var salary: int
    var jobTitle: string
    var email: string
    var uuid: Option<UUID>
    var contractHireDate: Option<Instant>

    /** A new employee with the given fields; `uuid` is whatever the constructor assigns. */
    constructor (firstName: string, lastName: string, salary: int, jobTitle: string, email: string, uuid: Option<UUID>)
      ensures this.firstName == firstName && this.lastName == lastName && this.salary == salary
      ensures this.jobTitle == jobTitle && this.email == email
      ensures this.uuid == uuid && contractHireDate == None
    {
      this.firstName := firstName;
      this.lastName := lastName;
      this.salary := salary;
      this.jobTitle := jobTitle;
      this.email := email;
      this.uuid := uuid;
      this.contractHireDate := None;
    }

    /** The five fields the constructor takes, other than the UUID. */
    ghost function Details(): EmployeeDetails
      reads this
    {
      EmployeeDetails(firstName, lastName, salary, jobTitle, email)
    }

    method SetUuid(u: UUID)
      modifies this`uuid
      ensures uuid == Some(u)
    {
      uuid := Some(u);
    }

    method SetContractHireDate(d: Instant)
      modifies this`contractHireDate
      ensures contractHireDate == Some(d)
    {
      contractHireDate := Some(d);
    }
  }

  /** The five employees `createEmployees` builds, with the UUIDs their constructor hands out. */
  method SeedEmployees(u1: UUID, u2: UUID, u3: UUID, u4: UUID, u5: UUID)
    returns (e1: Employee, e2: Employee, e3: Employee, e4: Employee, e5: Employee)
    ensures fresh(e1) && fresh(e2) && fresh(e3) && fresh(e4) && fresh(e5)
    ensures e1.uuid == Some(u1) && e2.uuid == Some(u2) && e3.uuid == Some(u3) && e4.uuid == Some(u4) && e5.uuid == Some(u5)
    ensures e1.contractHireDate == e2.contractHireDate == e3.contractHireDate == e4.contractHireDate == e5.contractHireDate == None
    ensures e1.Details() == Seeds[0] && e2.Details() == Seeds[1] && e3.Details() == Seeds[2]
    ensures e4.Details() == Seeds[3] && e5.Details() == Seeds[4]
  {
    e1 := new Employee("Anthony", "Apicella", 100000, "Manager", "anthonyap@gmail.com", Some(u1));
    e2 := new Employee("Charles", "Wattick", 90000, "Salesman", "charleswa@gmail.com", Some(u2));
    e3 := new Employee("Benjamin", "Mapp", 80000, "Software Engineer", "benjaminma@gmail.com", Some(u3));
    e4 := new Employee("Aidan", "Fecteau", 200000, "CEO", "aidanfe@gmail.com", Some(u4));
    e5 := new Employee("Peter", "Chelap", 50000, "Accountant", "peterche@gmail.com", Some(u5));
  }

  /** Five successive puts into an empty map: the keys are the five keys, and each key holds
      the value of its last put. */
  lemma PutFive<V>(k1: UUID, k2: UUID, k3: UUID, k4: UUID, k5: UUID, v1: V, v2: V, v3: V, v4: V, v5: V)
    ensures var m := map[k1 := v1][k2 := v2][k3 := v3][k4 := v4][k5 := v5];
      && m.Keys == {k1, k2, k3, k4, k5}
      && forall k :: k in m ==>
        || (k == k5 && m[k] == v5)
        || (k == k4 && k != k5 && m[k] == v4)
        || (k == k3 && k !in {k4, k5} && m[k] == v3)
        || (k == k2 && k !in {k3, k4, k5} && m[k] == v2)
        || (k == k1 && k !in {k2, k3, k4, k5} && m[k] == v1)
  {
  }

  class EmployeeService {
    var employeeMap: map<UUID, Employee>

    /** Every entry is keyed by its own employee's UUID. */
    ghost predicate Valid()
      reads this, employeeMap.Values
    {
      forall u :: u in employeeMap ==> employeeMap[u].uuid == Some(u)
    }

    /** `createEmployees`: construction followed by the seeding of five employees, whose
        UUIDs `u1`..`u5` are the ones their constructor hands out. */
    constructor (u1: UUID, u2: UUID, u3: UUID, u4: UUID, u5: UUID)
      ensures Valid()
      ensures employeeMap.Keys == {u1, u2, u3, u4, u5}
      ensures forall u :: u in employeeMap ==> fresh(employeeMap[u]) && employeeMap[u].contractHireDate == None
      ensures employeeMap[u5].Details() == Seeds[4]
      ensures u4 != u5 ==> employeeMap[u4].Details() == Seeds[3]
      ensures u3 !in {u4, u5} ==> employeeMap[u3].Details() == Seeds[2]
      ensures u2 !in {u3, u4, u5} ==> employeeMap[u2].Details() == Seeds[1]
      ensures u1 !in {u2, u3, u4, u5} ==> employeeMap[u1].Details() == Seeds[0]
    {
      var e1, e2, e3, e4, e5 := SeedEmployees(u1, u2, u3, u4, u5);
      var m: map<UUID, Employee> := map[];
      m := m[e1.uuid.value := e1];
      m := m[e2.uuid.value := e2];
      m := m[e3.uuid.value := e3];
      m := m[e4.uuid.value := e4];
      m := m[e5.uuid.value := e5];
      PutFive(u1, u2, u3, u4, u5, e1, e2, e3, e4, e5);
      employeeMap := m;
    }

    /** `getAllEmployees`: the stored employees, one per key, in the map's iteration order
        (chosen here by `order`). */
    method GetAllEmployees() returns (all: seq<Employee>, ghost order: seq<UUID>)
      ensures |all| == |employeeMap|
      ensures forall e :: e in all <==> e in employeeMap.Values
      ensures |order| == |all|
      ensures forall i :: 0 <= i < |order| ==> order[i] in employeeMap && all[i] == employeeMap[order[i]]
      ensures forall i, j :: 0 <= i < j < |order| ==> order[i] != order[j]
      ensures forall u :: u in employeeMap ==> u in order
    {
      all, order := [], [];
      var pending := employeeMap.Keys;
      while pending != {}
        invariant pending <= employeeMap.Keys
        invariant |all| == |order| == |employeeMap| - |pending|
        invariant forall i :: 0 <= i < |order| ==> order[i] in employeeMap && order[i] !in pending && all[i] == employeeMap[order[i]]
        invariant forall i, j :: 0 <= i < j < |order| ==> order[i] != order[j]
        invariant forall u :: u in employeeMap ==> u in order || u in pending
        invariant forall e :: e in all ==> e in employeeMap.Values
        decreases |pending|
      {
        var u :| u in pending;
        all, order := all + [employeeMap[u]], order + [u];
        pending := pending - {u};
      }
      forall e | e in employeeMap.Values ensures e in all {
        var u :| u in employeeMap && employeeMap[u] == e;
        var i :| 0 <= i < |order| && order[i] == u;
        assert all[i] == e;
      }
    }

    /** `getEmployeeByUUID`: the employee stored under `u`, or null. */
    method GetEmployeeByUUID(u: UUID) returns (e: Option<Employee>)
      requires Valid()
      ensures e.Some? <==> u in employeeMap
      ensures e.Some? ==> e.value == employeeMap[u] && e.value.uuid == Some(u)
    {
      e := if u in employeeMap then Some(employeeMap[u]) else None;
    }

    /** `createEmployee`: give `e` the UUID `freshId` if it has none and the hire date `now` if
        it has none, then store it under its UUID, replacing any entry there, and return it. */
    method CreateEmployee(e: Employee, freshId: UUID, now: Instant) returns (r: Employee)
      requires Valid()
      modifies this, e
      ensures Valid()
      ensures r == e
      ensures e.uuid == (if old(e.uuid).None? then Some(freshId) else old(e.uuid))
      ensures e.contractHireDate == (if old(e.contractHireDate).None? then Some(now) else old(e.contractHireDate))
      ensures e.firstName == old(e.firstName) && e.lastName == old(e.lastName) && e.salary == old(e.salary)
      ensures e.jobTitle == old(e.jobTitle) && e.email == old(e.email)
      ensures employeeMap == old(employeeMap)[e.uuid.value := e]
    {
      if e.uuid.None? {
        e.SetUuid(freshId);
      }
      if e.contractHireDate.None? {
        e.SetContractHireDate(now);
      }
      employeeMap := employeeMap[e.uuid.value := e];
      r := e;
    }
  }
}
