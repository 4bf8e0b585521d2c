# Employee API core — Dafny model

This project models the three parts of the employee REST API that hold logic.

- **The rate-limiting filter** (`RateLimiting`, `rate_limiting_filter.dfy`) runs before every request.
  - It sorts the request into the authentication class or the general API class. A request is in the authentication class when its URI contains `/api/v1/auth/` anywhere.
  - It raises that client's counter in that class by one.
  - It forwards the request only while the new count is within the class's ceiling: 5 for authentication, 30 for the general API.
  - Otherwise it answers 429 with a message for the class.
  - A periodic reset empties both counter tables.
  - The filter is a class with two mutable map fields. `Step` and `Run` give its behaviour as functions. `DoFilter`'s contract says one call performs one `Step` on the fields. `DoFilterAll` states that a sequence of `DoFilter` calls from tables `s` leaves the tables and gives the outcomes of `Run(s, …)`. Its proof uses `RunExtends`, the unfolding of `Run` at a sequence extended by one request. The lemmas about `Run` therefore state what a sequence of calls between two resets does.
- **The request validator and creation endpoint** (`EmployeeValidation`, `employee_validation.dfy`, and `EmployeeApi`, `employee_controller.dfy`).
  - Validation is an ordered chain of field guards, and the first failing guard decides the 400 message.
  - The four regular expressions are given by their meaning. The email matcher `EmailMatches` is proved equal to the email pattern's meaning. `SalaryPatternIff` states which `int` values render to a string that matches the salary pattern.
  - `ValidateIff` states exactly which requests pass.
  - Creation trims the fields, with the email also lower-cased, and keeps the request's hire date only when one is given. It stores the employee and answers 201.
  - Lookup by UUID answers 404 exactly when the store has no such key.
- **The in-memory store** (`EmployeeStore`, `employee_service.dfy`) is a class over `map<UUID, Employee>`.
  - Seeding stores five employees.
  - Listing returns the values of the map.
  - Lookup returns the entry or nothing.
  - Creation fills a missing UUID or hire date, then stores the employee under its UUID.
  - The invariant `Valid` says every entry is keyed by its own employee's UUID. Every store operation keeps it. `Employee.SetUuid` on a stored employee does not.

`Text` (`text.dfy`) gives the `java.lang.String` operations the core relies on: `trim`, ASCII `toLowerCase`, `contains` and `String.valueOf` of an `Integer`. It also defines `IndexOf` and `LastIndexOf`, which the source does not call: they locate the '@' and the last '.' for the model's own email matcher `EmailMatches`, which stands in for `Pattern.matcher`. `Common` (`common.dfy`) gives nullable values as `Option` and the types `Instant`, `UUID` and 32-bit `int`.

The filter classifies requests with `contains("/api/v1/auth/")`, not with a prefix test. The model follows the code: `/static/api/v1/auth/x` is an authentication request (`ClassifyEmbeddedMarker`).

Calls to the clock and to `UUID.randomUUID()` become parameters. The clock is read in two places: the validator reads it only when the request has a hire date, and the store reads it only when the employee has none. A single request therefore reads it at most once. The two places still get separate parameters (`now` and `storeNow`) because they are separate calls.

## Model

| member | source | states |
|---|---|---|
| Text.Trim | api/src/main/java/com/challenge/api/controller/EmployeeController.java:117 | the result has no char ≤ U+0020 at either end, and it is empty exactly when every char of the input is ≤ U+0020 (the "blank" test of the required-field guards) |
| Text.TrimSpec | api/src/main/java/com/challenge/api/controller/EmployeeController.java:91-94 | `trim` removes a prefix and a suffix of chars ≤ U+0020 and keeps exactly the slice between them |
| Text.TrimIdempotent | api/src/main/java/com/challenge/api/controller/EmployeeController.java:91-94 | trimming twice gives the same as trimming once; a property of `trim` that no other member relies on |
| Text.TrimmedIsFixpoint | api/src/main/java/com/challenge/api/controller/EmployeeController.java:121 | a string with nothing trimmable at either end is left unchanged by `trim` |
| Text.ToLower | api/src/main/java/com/challenge/api/controller/EmployeeController.java:95 | same length, each char is lower-cased one by one, and no ASCII capital is left |
| Text.Contains | api/src/main/java/com/challenge/api/config/RateLimitingFilter.java:41 | `String.contains` as a left-to-right search; its meaning, the needle occurring at some index, is stated by `Text.ContainsIff` |
| Text.ContainsIff | api/src/main/java/com/challenge/api/config/RateLimitingFilter.java:41 | `contains` holds exactly when the needle occurs at some index of the string |
| Text.IntToString | api/src/main/java/com/challenge/api/controller/EmployeeController.java:150 | the rendering starts with '-' exactly when the value is negative |
| Text.NatToStringLength | api/src/main/java/com/challenge/api/controller/EmployeeController.java:150-151 | the decimal rendering has at most k digits exactly when n < 10^k |
| RateLimiting.Classify | api/src/main/java/com/challenge/api/config/RateLimitingFilter.java:41-44 | the class of a request is auth exactly when its URI contains "/api/v1/auth/", as stated by `RateLimiting.ClassifyIsSubstringTest` and the four example lemmas below |
| RateLimiting.Ceiling | api/src/main/java/com/challenge/api/config/RateLimitingFilter.java:25-26 | the ceiling chosen at line 45: 5 for auth, 30 for general; used by `RateLimiting.Verdict`, `RateLimiting.LoginBurst` and `RateLimiting.ApiBurst` |
| RateLimiting.RejectMessage | api/src/main/java/com/challenge/api/config/RateLimitingFilter.java:54-56 | the class's rejection message; `RateLimiting.Verdict` and `RateLimiting.AdmittedIffWithinCeiling` state that every rejection carries it |
| RateLimiting.ClassifyIsSubstringTest | api/src/main/java/com/challenge/api/config/RateLimitingFilter.java:41 | a request is auth-class exactly when "/api/v1/auth/" occurs anywhere in its URI |
| RateLimiting.ClassifyLogin | api/src/main/java/com/challenge/api/config/RateLimitingFilter.java:41 | "/api/v1/auth/login" is auth-class |
| RateLimiting.ClassifyNoTrailingSlash | api/src/main/java/com/challenge/api/config/RateLimitingFilter.java:41 | "/api/v1/auth", without the trailing slash, is general |
| RateLimiting.ClassifyEmployee | api/src/main/java/com/challenge/api/config/RateLimitingFilter.java:41 | "/api/v1/employee" is general |
| RateLimiting.ClassifyEmbeddedMarker | api/src/main/java/com/challenge/api/config/RateLimitingFilter.java:41 | a URI with the marker in the middle ("/static/api/v1/auth/x") is auth-class |
| RateLimiting.Verdict | api/src/main/java/com/challenge/api/config/RateLimitingFilter.java:45-61 | forward exactly when the new count is at most the ceiling (5 for auth, 30 for general); otherwise status 429 with the class's message |
| RateLimiting.Step | api/src/main/java/com/challenge/api/config/RateLimitingFilter.java:41-61 | the chosen class's counter for the client rises by exactly 1 (an absent client starts at 0), every other counter of either class is unchanged, and the verdict is taken on the new count |
| RateLimiting.Run | api/src/main/java/com/challenge/api/config/RateLimitingFilter.java:32-62 | a sequence of calls yields one outcome per request |
| RateLimiting.RunExtends | api/src/main/java/com/challenge/api/config/RateLimitingFilter.java:32-62 | the unfolding of `Run`'s definition at a sequence extended by one request: one more call after a run is one more `Step`; `RateLimiting.DoFilterAll` uses it |
| RateLimiting.DoFilterAll | api/src/main/java/com/challenge/api/config/RateLimitingFilter.java:32-62 | a sequence of `DoFilter` calls on one filter with no reset in between leaves the tables and gives the outcomes that `Run` gives from the starting tables |
| RateLimiting.RunCount | api/src/main/java/com/challenge/api/config/RateLimitingFilter.java:48-49 | after a sequence of calls each counter has grown by the number of that client's requests in that class |
| RateLimiting.RunPrefix | api/src/main/java/com/challenge/api/config/RateLimitingFilter.java:32-62 | later requests do not change the outcomes of earlier ones |
| RateLimiting.RunLastOutcome | api/src/main/java/com/challenge/api/config/RateLimitingFilter.java:48-52 | the last request's verdict is taken on the starting count plus the number of matching requests, itself included |
| RateLimiting.RunOutcome | api/src/main/java/com/challenge/api/config/RateLimitingFilter.java:48-52 | the i-th request's verdict is taken on the starting count plus its position among the requests of its client and class |
| RateLimiting.AdmittedIffWithinCeiling | api/src/main/java/com/challenge/api/config/RateLimitingFilter.java:49-58 | since the last reset, the k-th request of a client in a class is forwarded iff k ≤ ceiling; a rejection is 429 with the class's message |
| RateLimiting.MatchingMonotone | api/src/main/java/com/challenge/api/config/RateLimitingFilter.java:49 | a client's count in a class never decreases along a sequence of calls |
| RateLimiting.RejectedStaysRejected | api/src/main/java/com/challenge/api/config/RateLimitingFilter.java:49-52 | once a client is rejected in a class, every later request of that client in that class is rejected until the next reset |
| RateLimiting.MatchingRepeated | api/src/main/java/com/challenge/api/config/RateLimitingFilter.java:48-49 | the first k of n copies of one request contain k matching requests |
| RateLimiting.RepeatedRequest | api/src/main/java/com/challenge/api/config/RateLimitingFilter.java:49-52 | when one request is repeated after a reset, call i is forwarded iff i < ceiling |
| RateLimiting.LoginBurst | api/src/main/java/com/challenge/api/config/RateLimitingFilter.java:26-56 | six login requests from one client: the first five are forwarded, and the sixth gets 429 "Too many login attempts. Please try again later." |
| RateLimiting.ApiBurst | api/src/main/java/com/challenge/api/config/RateLimitingFilter.java:25-57 | 31 employee requests from one client: the first 30 are forwarded, and the 31st gets 429 "Too many API requests. Please try again later." |
| RateLimiting.ResetReadmits | api/src/main/java/com/challenge/api/config/RateLimitingFilter.java:75-78 | on empty tables any client's next request in either class sees count 1 and is forwarded |
| RateLimiting.RateLimitingFilter.constructor | api/src/main/java/com/challenge/api/config/RateLimitingFilter.java:21-22 | both tables start empty |
| RateLimiting.RateLimitingFilter.DoFilter | api/src/main/java/com/challenge/api/config/RateLimitingFilter.java:32-62 | the new tables and the outcome are those of `Step`: only the chosen class's table changes, and only at the client's key, which becomes the old count (0 if absent) plus 1; forward iff that count is within the ceiling |
| RateLimiting.RateLimitingFilter.ResetRequestCounts | api/src/main/java/com/challenge/api/config/RateLimitingFilter.java:75-78 | both tables are empty afterwards |
| EmployeeValidation.NamePatternMatches | api/src/main/java/com/challenge/api/controller/EmployeeController.java:51 | NAME_PATTERN `^[a-zA-Z\s-']{2,50}$` (and, at line 53, JOB_TITLE_PATTERN with max 100) by its meaning (length 2..max, each char an ASCII letter, whitespace, '-' or '\''), used with max 50 for names and 100 for job titles; its use is stated by `EmployeeValidation.TextFieldGuard` |
| EmployeeValidation.EmailPatternMatches | api/src/main/java/com/challenge/api/controller/EmployeeController.java:52 | `^[A-Za-z0-9+_.-]+@[A-Za-z0-9.-]+\.[A-Za-z]{2,}$` by its meaning: some split into a non-empty local part of letters, digits, '+', '_', '.' and '-', an '@', a non-empty run of letters, digits, '.' and '-', a '.', and two or more letters; `EmployeeValidation.EmailMatchesIff` states that the matcher accepts exactly these |
| EmployeeValidation.SalaryPatternMatches | api/src/main/java/com/challenge/api/controller/EmployeeController.java:54 | `^[0-9]{1,7}$` by its meaning: 1 to 7 ASCII digits; its use on the rendered salary is stated by `EmployeeValidation.SalaryPatternIff` |
| EmployeeValidation.EmailMatches | api/src/main/java/com/challenge/api/controller/EmployeeController.java:52 | the email matcher, anchored at the first '@' and the last '.'; `EmployeeValidation.EmailMatchesIff` states that it accepts exactly what the email pattern matches |
| EmployeeValidation.EmailMatchesIff | api/src/main/java/com/challenge/api/controller/EmployeeController.java:52 | the matcher, anchored at the first '@' and the last '.', accepts exactly the strings of the form local-part '@' domain-run '.' two-or-more letters |
| EmployeeValidation.SalaryPatternIff | api/src/main/java/com/challenge/api/controller/EmployeeController.java:150-151 | the decimal rendering of an int matches `^[0-9]{1,7}$` iff the value lies in 0..9999999 |
| EmployeeValidation.CheckTextField | api/src/main/java/com/challenge/api/controller/EmployeeController.java:117-135 | the required and format guards of a name-like field (first and last name here, job title at lines 163-170); `EmployeeValidation.TextFieldGuard` states when it passes and which message it gives |
| EmployeeValidation.TextFieldGuard | api/src/main/java/com/challenge/api/controller/EmployeeController.java:117-170 | a name or job-title field passes iff its trimmed value has length 2..max and only ASCII letters, whitespace, '-' and '\''; a null or blank value gets the "required" message, never the format message |
| EmployeeValidation.CheckEmail | api/src/main/java/com/challenge/api/controller/EmployeeController.java:138-144 | the required and format guards of the email; `EmployeeValidation.EmailGuard` states when it passes and which message it gives |
| EmployeeValidation.EmailGuard | api/src/main/java/com/challenge/api/controller/EmployeeController.java:138-144 | the email field passes iff its trimmed, lower-cased value matches the email pattern; a null or blank value gets "Email is required" |
| EmployeeValidation.CheckSalary | api/src/main/java/com/challenge/api/controller/EmployeeController.java:147-160 | the four salary guards in source order; `EmployeeValidation.SalaryGuard` states the accepted range and each message |
| EmployeeValidation.SalaryGuard | api/src/main/java/com/challenge/api/controller/EmployeeController.java:147-160 | a salary passes iff it lies in 1..1000000; null, negative or over seven digits, 0, and 1000001..9999999 each get their own message |
| EmployeeValidation.CheckHireDate | api/src/main/java/com/challenge/api/controller/EmployeeController.java:173-178 | a hire date fails iff it is strictly after `now`, with the future-date message; an absent date always passes |
| EmployeeValidation.Groups | api/src/main/java/com/challenge/api/controller/EmployeeController.java:116-178 | its contract says there are six groups; its body lists them in source order: first name, last name, email, salary, job title, hire date |
| EmployeeValidation.Validate | api/src/main/java/com/challenge/api/controller/EmployeeController.java:111-114 | a null body fails with "Request body cannot be null" |
| EmployeeValidation.FirstFailure | api/src/main/java/com/challenge/api/controller/EmployeeController.java:116-178 | the early-exit chain: guards run in order and the first failure is the answer, as stated by `EmployeeValidation.FirstFailureIsFirst` and `EmployeeValidation.FirstFailurePass` |
| EmployeeValidation.FirstFailureIsFirst | api/src/main/java/com/challenge/api/controller/EmployeeController.java:116-178 | when guard k is the first to fail, the chain's answer is guard k's, whatever the later guards say |
| EmployeeValidation.FirstFailurePass | api/src/main/java/com/challenge/api/controller/EmployeeController.java:116-178 | the chain passes iff every guard passes, and a failing chain answers with some failing guard's message |
| EmployeeValidation.FirstFailureDecides | api/src/main/java/com/challenge/api/controller/EmployeeController.java:111-178 | only the first failing field group is reported |
| EmployeeValidation.ValidateIff | api/src/main/java/com/challenge/api/controller/EmployeeController.java:111-179 | the validator passes exactly the non-null requests whose every field is acceptable by the patterns' meaning, with salary in 1..1000000 and no future hire date |
| EmployeeValidation.BlankFirstNameIsRequired | api/src/main/java/com/challenge/api/controller/EmployeeController.java:117-120 | a null or blank first name is answered "First name is required", whatever the other fields hold |
| EmployeeStore.Employee.constructor | api/src/main/java/com/challenge/api/controller/EmployeeController.java:90-95 | a new employee holds the given fields and UUID, and has no hire date |
| EmployeeStore.Employee.SetUuid | api/src/main/java/com/challenge/api/service/EmployeeService.java:57 | sets the UUID and changes no other field |
| EmployeeStore.Employee.SetContractHireDate | api/src/main/java/com/challenge/api/service/EmployeeService.java:60 | sets the hire date and changes no other field |
| EmployeeStore.SeedEmployees | api/src/main/java/com/challenge/api/service/EmployeeService.java:20-24 | five new employees with the constructor's UUIDs, no hire date, and the seeded first names, last names, salaries, job titles and emails, in order |
| EmployeeStore.EmployeeService.constructor | api/src/main/java/com/challenge/api/service/EmployeeService.java:18-30 | the store is valid, its keys are exactly the five seeded employees' UUIDs, every entry is new with no hire date, and each UUID not overwritten by a later put holds an employee with its seeded first name, last name, salary, job title and email |
| EmployeeStore.EmployeeService.GetAllEmployees | api/src/main/java/com/challenge/api/service/EmployeeService.java:41-43 | the list holds exactly the values of the map, as many as there are keys: one entry per key, every key listed exactly once, each entry the employee stored under its key |
| EmployeeStore.EmployeeService.GetEmployeeByUUID | api/src/main/java/com/challenge/api/service/EmployeeService.java:48-50 | some employee iff the key is present; it is the stored one and carries that UUID |
| EmployeeStore.EmployeeService.CreateEmployee | api/src/main/java/com/challenge/api/service/EmployeeService.java:55-64 | a fresh UUID only when none is set and `now` as hire date only when none is set; other fields kept; the map gains or overwrites exactly that UUID's entry; the same employee is returned; `Valid` is kept |
| EmployeeApi.GetEmployeeByUuid | api/src/main/java/com/challenge/api/controller/EmployeeController.java:71-77 | 404 "Employee not found" exactly when the store has no such key, otherwise 200 with the stored employee |
| EmployeeApi.AcceptedRequestNormalises | api/src/main/java/com/challenge/api/controller/EmployeeController.java:87-95 | a request the validator passes has every field creation reads; its trimmed (and, for the email, lower-cased) values are trimmed and match their patterns; its salary is in 1..1000000 and its hire date is not in the future |
| EmployeeApi.NewEmployee | api/src/main/java/com/challenge/api/controller/EmployeeController.java:90-100 | a new employee with the given field values and UUID, carrying the request's hire date only when one is given |
| EmployeeApi.CreateEmployee | api/src/main/java/com/challenge/api/controller/EmployeeController.java:85-104 | an invalid request gets 400 with the first failing guard's message and leaves the store unchanged; a valid one gets 201 with a new employee whose names and job title are trimmed, whose email is trimmed and lower-cased, and whose fields match their patterns; its UUID is the constructor's or the fresh one; its hire date is the request's, or the store's clock when none is given; it is stored under its UUID |

## Left out

- Concurrency in the filter is not modelled. This covers the atomicity of `ConcurrentHashMap` and `AtomicInteger`, and the race where a reset between `putIfAbsent` and `get` makes `get` return null. Each filter call is one atomic step.
- The reset scheduler is modelled only by `ResetRequestCounts`. This covers `init` and `destroy` and the executor. Time is not modelled.
- Servlet I/O is not modelled: `setStatus`, `getWriter().write`, the casts, and `chain.doFilter`. The outcome datatype records whether the chain is called once (`Forward`) or not at all (`Reject` with the status and body written).
- RateLimiting.RateLimitingFilter.DoFilter: `AtomicInteger` would wrap past 2^31 − 1 increments within one window. The counters here are unbounded naturals.
- `SecurityConfig`, `AuthController`, `GlobalExceptionHandler` and the framework's request dispatch are not part of this model.
- `DefaultEmployee` and its interface `Employee` are not part of this model. The model assumes two things about them:
  - the constructor stores its five arguments as given, assigns some UUID (a parameter of the model, possibly absent), and sets no hire date;
  - the getters return the fields.
- `UUID.randomUUID()` and `Instant.now()` are parameters.
- EmployeeStore.Employee: the name, salary, job-title and email setters of the employee interface are not modelled, because the core never calls them.
- EmployeeStore.EmployeeService: the source's `employeeMap` is a `static` field, so every instance shares one map and each `createEmployees` call replaces it. The model makes it an instance field: two service objects here have separate maps.
- `HashMap` iteration order in `getAllEmployees` is left open: the listing is correct for every order.
- EmployeeStore.EmployeeService.Valid: the store holds references to the caller's employees, as the source does, so a later change to a stored employee is seen through the map. `Valid` therefore holds only while nothing outside the store changes a stored employee's UUID. No code in the core does.
- The controller's `getAllEmployees` is a one-line delegation to the store and has no member of its own.
- `System.out.println` in the first-name guard is not modelled.
- `toLowerCase` is modelled as ASCII lower-casing, not locale-sensitive. `trim` strips chars ≤ U+0020 at both ends.
- EmployeeStore.EmployeeService.constructor: seeding assumes the employee constructor assigns each seeded employee a UUID (the parameters `u1`..`u5`). If it assigned none, the source would put all five under `HashMap`'s null key and keep one entry. That case is not modelled for seeding, though `CreateEmployee` and the controller do allow an employee without a UUID.
- EmployeeStore.EmployeeService.constructor: the source leaves exactly five entries only because random UUIDs are distinct. The contract states this as equality of the key set with the five UUIDs, plus the per-key seeded fields, rather than as a count.
