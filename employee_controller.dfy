/**
 * The employee endpoints that hold logic: lookup by UUID with its not-found rule, and
 * creation, which validates the request, normalises its fields and hands the new employee
 * to the store.
 */
module EmployeeApi {
  import opened Common
  import opened Text
  import opened EmployeeValidation
  import opened EmployeeStore

  const Ok: nat := 200
  const Created: nat := 201
  const BadRequest: nat := 400
  const NotFound: nat := 404
  const EmployeeNotFound := "Employee not found"

  /** An HTTP answer: a body with a success status, or an error status with its reason. */
  datatype Response<T> = Success(status: nat, body: T) | Error(status: nat, reason: string)

  /** `GET /api/v1/employee/{uuid}`: 404 "Employee not found" exactly when the store has no
      employee under `uuid`. */
  method GetEmployeeByUuid(service: EmployeeService, uuid: UUID) returns (res: Response<Employee>)
    requires service.Valid()
    ensures res.Error? <==> uuid !in service.employeeMap
    ensures res.Error? ==> res.status == NotFound && res.reason == EmployeeNotFound
    ensures res.Success? ==> res.status == Ok && res.body == service.employeeMap[uuid] && res.body.uuid == Some(uuid)
  {
    var employee := service.GetEmployeeByUUID(uuid);
    if employee.None? {
      return Error(NotFound, EmployeeNotFound);
    }
    res := Success(Ok, employee.value);
  }

  /** A stored employee as creation leaves it: trimmed fields that match their patterns and a
      salary in range. */
  ghost predicate IsNormalisedFields(firstName: string, lastName: string, jobTitle: string, email: string) {
    && NamePatternMatches(firstName, MaxNameLength) && IsTrimmed(firstName)
    && NamePatternMatches(lastName, MaxNameLength) && IsTrimmed(lastName)
    && NamePatternMatches(jobTitle, MaxJobTitleLength) && IsTrimmed(jobTitle)
    && EmailPatternMatches(email)
  }

  ghost predicate IsNormalised(e: Employee)
    reads e
  {
    IsNormalisedFields(e.firstName, e.lastName, e.jobTitle, e.email) && 1 <= e.salary <= MaxSalary
  }

  /** The fields creation reads without a null check. */
  predicate HasAllFields(r: EmployeeRequest) {
    r.firstName.Some? && r.lastName.Some? && r.salary.Some? && r.jobTitle.Some? && r.email.Some?
  }

  /** A request the validator passes has all fields creation reads, and normalising them
      (trim; trim and lower-case for the email) gives trimmed values that match their patterns
      and a salary in 1..1000000. */
  lemma {:induction false} AcceptedRequestNormalises(request: Option<EmployeeRequest>, now: Instant)
    requires Validate(request, now) == Pass
    ensures request.Some? && HasAllFields(request.value)
    ensures var r := request.value;
      && IsNormalisedFields(Trim(r.firstName.value), Trim(r.lastName.value), Trim(r.jobTitle.value),
                            ToLower(Trim(r.email.value)))
      && 1 <= r.salary.value <= MaxSalary
      && (r.contractHireDate.Some? ==> r.contractHireDate.value <= now)
  {
    ValidateIff(request, now);
  }

  /** The employee built from already normalised field values, carrying the request's hire
      date only when one was provided. */
  method NewEmployee(firstName: string, lastName: string, salary: int, jobTitle: string, email: string,
                     initialId: Option<UUID>, hireDate: Option<Instant>) returns (e: Employee)
    ensures fresh(e)
    ensures e.firstName == firstName && e.lastName == lastName && e.salary == salary
    ensures e.jobTitle == jobTitle && e.email == email
    ensures e.uuid == initialId && e.contractHireDate == hireDate
  {
    e := new Employee(firstName, lastName, salary, jobTitle, email, initialId);
    if hireDate.Some? {
      e.SetContractHireDate(hireDate.value);
    }
  }

  /** `POST /api/v1/employee`. `now` is the validator's clock reading, `initialId` the UUID
      the employee's constructor assigns (if any), and `freshId` and `storeNow` the random
      UUID and clock reading the store would use. */
  method CreateEmployee(service: EmployeeService, request: Option<EmployeeRequest>, now: Instant,
                        initialId: Option<UUID>, freshId: UUID, storeNow: Instant)
    returns (res: Response<Employee>)
    requires service.Valid()
    modifies service
    ensures service.Valid()
    ensures Validate(request, now).Fail? ==>
      res == Error(BadRequest, Validate(request, now).message) && service.employeeMap == old(service.employeeMap)
    ensures Validate(request, now) == Pass ==>
      && request.Some? && HasAllFields(request.value)
      && res.Success? && res.status == Created && fresh(res.body)
      && var r, e := request.value, res.body;
      && e.firstName == Trim(r.firstName.value) && e.lastName == Trim(r.lastName.value)
      && e.jobTitle == Trim(r.jobTitle.value) && e.email == ToLower(Trim(r.email.value))
      && e.salary == r.salary.value
      && e.uuid == Some(if initialId.Some? then initialId.value else freshId)
      && e.contractHireDate == (if r.contractHireDate.Some? then r.contractHireDate else Some(storeNow))
      && service.employeeMap == old(service.employeeMap)[e.uuid.value := e]
    ensures Validate(request, now) == Pass ==> IsNormalised(res.body)
  {
    var check := Validate(request, now);
    if check.Fail? {
      return Error(BadRequest, check.message);
    }
    AcceptedRequestNormalises(request, now);
    var r := request.value;
    var employee := NewEmployee(Trim(r.firstName.value), Trim(r.lastName.value), r.salary.value,
                                Trim(r.jobTitle.value), ToLower(Trim(r.email.value)),
                                initialId, r.contractHireDate);
    var created := service.CreateEmployee(employee, freshId, storeNow);
    assert created.uuid == Some(if initialId.Some? then initialId.value else freshId);
    res := Success(Created, created);
  }
}
