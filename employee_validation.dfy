/**
 * The request validator of the employee creation endpoint: an ordered chain of guards,
 * one group per field, where the first failing guard decides the 400 message.
 * The four regular expressions of the controller are given here by their meaning.
 */
module EmployeeValidation {
  import opened Common
  import opened Text

  /** The request body of `POST /api/v1/employee`; any field may be null. */
  datatype EmployeeRequest = EmployeeRequest(
    firstName: Option<string>,
    lastName: Option<string>,
    salary: Option<Int32>,
    jobTitle: Option<string>,
    email: Option<string>,
    contractHireDate: Option<Instant>)

  /** The outcome of a guard: pass, or a 400 with this message. */
  datatype Check = Pass | Fail(message: string)

  const NullBody := "Request body cannot be null"
  const FirstNameRequired := "First name is required"
  const FirstNameFormat := "First name must contain only letters, spaces, hyphens, and apostrophes (2-50 characters)"
  const LastNameRequired := "Last name is required"
  const LastNameFormat := "Last name must contain only letters, spaces, hyphens, and apostrophes (2-50 characters)"
  const EmailRequired := "Email is required"
  const EmailFormat := "Invalid email format. Must be in format: username@domain.com"
  const SalaryRequired := "Salary is required"
  const SalaryFormat := "Salary must be a positive number with no decimal places"
  const SalaryNotPositive := "Salary must be positive"
  const SalaryTooHigh := "Salary seems unreasonably high"
  const JobTitleRequired := "Job title is required"
  const JobTitleFormat := "Job title must contain only letters, spaces, hyphens, and apostrophes (2-100 characters)"
  const HireDateInFuture := "Contract hire date cannot be in the future"

  const MaxNameLength: nat := 50
  const MaxJobTitleLength: nat := 100
  const MaxSalary: int := 1000000

  // ---- Character classes of the four patterns ----

  predicate IsAsciiLetter(c: char) {
    'a' <= c <= 'z' || 'A' <= c <= 'Z'
  }

  /** The regex class `\s`: space, tab, newline, vertical tab, form feed, carriage return. */
  predicate IsRegexSpace(c: char) {
    c == ' ' || c == '\t' || c == '\n' || c as int == 0x0B || c as int == 0x0C || c == '\r'
  }

  /** `[a-zA-Z\s-']` */
  predicate IsNameChar(c: char) {
    IsAsciiLetter(c) || IsRegexSpace(c) || c == '-' || c == '\''
  }

  /** `[A-Za-z0-9+_.-]` */
  predicate IsLocalPartChar(c: char) {
    IsAsciiLetter(c) || IsDigit(c) || c == '+' || c == '_' || c == '.' || c == '-'
  }

  /** `[A-Za-z0-9.-]` */
  predicate IsDomainChar(c: char) {
    IsAsciiLetter(c) || IsDigit(c) || c == '.' || c == '-'
  }

  // ---- The patterns ----

  /** `^[a-zA-Z\s-']{2,max}$`: NAME_PATTERN with max 50, JOB_TITLE_PATTERN with max 100. */
  predicate NamePatternMatches(s: string, max: nat) {
    2 <= |s| <= max && forall i :: 0 <= i < |s| ==> IsNameChar(s[i])
  }

  /** `^[0-9]{1,7}$`: SALARY_PATTERN. */
  predicate SalaryPatternMatches(s: string) {
    1 <= |s| <= 7 && forall i :: 0 <= i < |s| ==> IsDigit(s[i])
  }

  /** EMAIL_PATTERN matched with '@' at `at` and the literal `\.` at `dot`:
      local part `s[..at]`, domain run `s[at+1..dot]`, top-level part `s[dot+1..]`. */
  ghost predicate EmailPatternSplit(s: string, at: nat, dot: nat) {
    && 0 < at && at + 1 < dot && dot + 2 < |s|
    && s[at] == '@' && s[dot] == '.'
    && (forall i :: 0 <= i < at ==> IsLocalPartChar(s[i]))
    && (forall i :: at < i < dot ==> IsDomainChar(s[i]))
    && (forall i :: dot < i < |s| ==> IsAsciiLetter(s[i]))
  }

  /** `^[A-Za-z0-9+_.-]+@[A-Za-z0-9.-]+\.[A-Za-z]{2,}$`: some split matches. */
  ghost predicate EmailPatternMatches(s: string) {
    exists at: nat, dot: nat :: EmailPatternSplit(s, at, dot)
  }

  /** The matcher: the '@' must be the first '@' and the `\.` the last '.' of the string. */
  function EmailMatches(s: string): bool {
    match (IndexOf(s, '@'), LastIndexOf(s, '.'))
    case (Some(at), Some(dot)) =>
      && 0 < at && at + 1 < dot && dot + 2 < |s|
      && (forall i | 0 <= i < at :: IsLocalPartChar(s[i]))
      && (forall i | at < i < dot :: IsDomainChar(s[i]))
      && (forall i | dot < i < |s| :: IsAsciiLetter(s[i]))
    case _ => false
  }

  /** The matcher accepts exactly the strings the pattern matches. */
  lemma {:induction false} EmailMatchesIff(s: string)
    ensures EmailMatches(s) <==> EmailPatternMatches(s)
  {
    if EmailMatches(s) {
      var at, dot := IndexOf(s, '@').value, LastIndexOf(s, '.').value;
      assert EmailPatternSplit(s, at, dot);
    }
    if EmailPatternMatches(s) {
      var at: nat, dot: nat :| EmailPatternSplit(s, at, dot);
      // No char before `at` is '@' and no char after `dot` is '.', so the split is unique.
      assert IndexOf(s, '@') == Some(at) by {
        forall j | 0 <= j < at ensures s[j] != '@' { assert IsLocalPartChar(s[j]); }
      }
      assert LastIndexOf(s, '.') == Some(dot) by {
        forall j | dot < j < |s| ensures s[j] != '.' { assert IsAsciiLetter(s[j]); }
      }
    }
  }

  /** The decimal rendering of an `int` matches SALARY_PATTERN iff it is in 0..9999999:
      negative values render with a '-', and 10^7 and above need eight digits or more. */
  lemma {:induction false} SalaryPatternIff(n: int)
    ensures SalaryPatternMatches(IntToString(n)) <==> 0 <= n <= 9999999
  {
    if n < 0 {
      assert !IsDigit(IntToString(n)[0]);
    } else {
      NatToStringLength(n, 7);
      assert Pow10(7) == 10000000;
    }
  }

  // ---- The guards, one group per field ----

  /** The two guards for a name-like field: required (not null, not blank after trim), then
      the pattern on the trimmed value. */
  function CheckTextField(v: Option<string>, max: nat, required: string, format: string): Check {
    if v.None? || Trim(v.value) == [] then Fail(required)
    else if !NamePatternMatches(Trim(v.value), max) then Fail(format)
    else Pass
  }

  /** A name-like field passes iff its trimmed value matches the pattern; a null or blank
      value gets the "required" message, never the format message. */
  lemma {:induction false} TextFieldGuard(v: Option<string>, max: nat, required: string, format: string)
    ensures CheckTextField(v, max, required, format) == Pass <==> v.Some? && NamePatternMatches(Trim(v.value), max)
    ensures v.None? || AllTrimmable(v.value) ==> CheckTextField(v, max, required, format) == Fail(required)
    ensures v.Some? && !AllTrimmable(v.value) && CheckTextField(v, max, required, format) != Pass
      ==> CheckTextField(v, max, required, format) == Fail(format)
  {
    if v.Some? {
      assert Trim(v.value) == [] <==> AllTrimmable(v.value);
    }
  }

  /** The email guards: required, then the pattern on the trimmed, lower-cased value. */
  function CheckEmail(v: Option<string>): Check {
    if v.None? || Trim(v.value) == [] then Fail(EmailRequired)
    else if !EmailMatches(ToLower(Trim(v.value))) then Fail(EmailFormat)
    else Pass
  }

  /** The email field passes iff its trimmed, lower-cased value matches EMAIL_PATTERN; a null
      or blank value gets the "required" message, never the format message. */
  lemma {:induction false} EmailGuard(v: Option<string>)
    ensures CheckEmail(v) == Pass <==> v.Some? && EmailPatternMatches(ToLower(Trim(v.value)))
    ensures v.None? || AllTrimmable(v.value) ==> CheckEmail(v) == Fail(EmailRequired)
    ensures v.Some? && !AllTrimmable(v.value) && CheckEmail(v) != Pass ==> CheckEmail(v) == Fail(EmailFormat)
  {
    if v.Some? {
      EmailMatchesIff(ToLower(Trim(v.value)));
      if Trim(v.value) == [] {
        assert !EmailPatternMatches(ToLower([]));
      }
    }
  }

  /** The salary guards: required, SALARY_PATTERN on `String.valueOf`, positive, at most
      1000000. */
  function CheckSalary(v: Option<Int32>): Check {
    if v.None? then Fail(SalaryRequired)
    else if !SalaryPatternMatches(IntToString(v.value)) then Fail(SalaryFormat)
    else if v.value <= 0 then Fail(SalaryNotPositive)
    else if v.value > MaxSalary then Fail(SalaryTooHigh)
    else Pass
  }

  /** A salary passes iff it lies in 1..1000000, and each failing range has its own message:
      negative values and those with more than seven digits fail the pattern. */
  lemma {:induction false} SalaryGuard(v: Option<Int32>)
    ensures CheckSalary(v) == Pass <==> v.Some? && 1 <= v.value <= MaxSalary
    ensures v.None? ==> CheckSalary(v) == Fail(SalaryRequired)
    ensures v.Some? && (v.value < 0 || v.value > 9999999) ==> CheckSalary(v) == Fail(SalaryFormat)
    ensures v == Some(0) ==> CheckSalary(v) == Fail(SalaryNotPositive)
    ensures v.Some? && MaxSalary < v.value <= 9999999 ==> CheckSalary(v) == Fail(SalaryTooHigh)
  {
    if v.Some? {
      SalaryPatternIff(v.value);
    }
  }

  /** The hire-date guard: a date strictly after `now` fails; an absent date never does. */
  function CheckHireDate(v: Option<Instant>, now: Instant): (c: Check)
    ensures c == Pass <==> v.None? || v.value <= now
    ensures c != Pass ==> c == Fail(HireDateInFuture)
  {
    if v.Some? && v.value > now then Fail(HireDateInFuture) else Pass
  }

  /** The field groups in the order the validator checks them. */
  function Groups(r: EmployeeRequest, now: Instant): (g: seq<Check>)
    ensures |g| == 6
  {
    [ CheckTextField(r.firstName, MaxNameLength, FirstNameRequired, FirstNameFormat),
      CheckTextField(r.lastName, MaxNameLength, LastNameRequired, LastNameFormat),
      CheckEmail(r.email),
      CheckSalary(r.salary),
      CheckTextField(r.jobTitle, MaxJobTitleLength, JobTitleRequired, JobTitleFormat),
      CheckHireDate(r.contractHireDate, now) ]
  }

  /** Guards run in order and the first failure ends the chain. */
  function FirstFailure(g: seq<Check>): Check {
    if g == [] then Pass
    else if g[0].Fail? then g[0]
    else FirstFailure(g[1..])
  }

  /** `validateEmployeeRequest(request)`, with `now` the clock reading it takes. */
  function Validate(req: Option<EmployeeRequest>, now: Instant): (c: Check)
    ensures req.None? ==> c == Fail(NullBody)
  {
    if req.None? then Fail(NullBody) else FirstFailure(Groups(req.value, now))
  }

  /** The chain passes iff every guard passes; when guard k is the first to fail, its
      outcome is the chain's, whatever the later guards say. */
  lemma {:induction false} FirstFailureIsFirst(g: seq<Check>, k: nat)
    requires k < |g|
    requires forall j :: 0 <= j < k ==> g[j] == Pass
    requires g[k].Fail?
    ensures FirstFailure(g) == g[k]
  {
    if k > 0 {
      assert g[0] == Pass;
      FirstFailureIsFirst(g[1..], k - 1);
    }
  }

  lemma {:induction false} FirstFailurePass(g: seq<Check>)
    ensures FirstFailure(g) == Pass <==> forall j :: 0 <= j < |g| ==> g[j] == Pass
    ensures FirstFailure(g) != Pass ==> exists k :: 0 <= k < |g| && FirstFailure(g) == g[k] && g[k].Fail?
  {
    if g != [] && g[0] == Pass {
      FirstFailurePass(g[1..]);
      if FirstFailure(g) != Pass {
        var k :| 0 <= k < |g[1..]| && FirstFailure(g[1..]) == g[1..][k] && g[1..][k].Fail?;
        assert g[k + 1] == g[1..][k];
      }
    }
  }

  lemma {:induction false} AllPassOfSix(g: seq<Check>)
    requires |g| == 6
    ensures (forall j :: 0 <= j < |g| ==> g[j] == Pass)
      <==> g[0] == Pass && g[1] == Pass && g[2] == Pass && g[3] == Pass && g[4] == Pass && g[5] == Pass
  {
    if g[0] == Pass && g[1] == Pass && g[2] == Pass && g[3] == Pass && g[4] == Pass && g[5] == Pass {
      forall j | 0 <= j < |g| ensures g[j] == Pass {
        assert j in {0, 1, 2, 3, 4, 5};
      }
    }
  }

  /** Only the first failure is reported: when field group k is the first to fail, its
      message is the answer, whatever the later fields hold. */
  lemma {:induction false} FirstFailureDecides(r: EmployeeRequest, now: Instant, k: nat)
    requires k < 6
    requires forall j :: 0 <= j < k ==> Groups(r, now)[j] == Pass
    requires Groups(r, now)[k].Fail?
    ensures Validate(Some(r), now) == Groups(r, now)[k]
  {
    FirstFailureIsFirst(Groups(r, now), k);
  }

  /** A request every field of which is acceptable, stated by the patterns' meaning. */
  ghost predicate IsAcceptable(r: EmployeeRequest, now: Instant) {
    && r.firstName.Some? && NamePatternMatches(Trim(r.firstName.value), MaxNameLength)
    && r.lastName.Some? && NamePatternMatches(Trim(r.lastName.value), MaxNameLength)
    && r.email.Some? && EmailPatternMatches(ToLower(Trim(r.email.value)))
    && r.salary.Some? && 1 <= r.salary.value <= MaxSalary
    && r.jobTitle.Some? && NamePatternMatches(Trim(r.jobTitle.value), MaxJobTitleLength)
    && (r.contractHireDate.None? || r.contractHireDate.value <= now)
  }

  /** The validator passes exactly the non-null requests whose fields are all acceptable. */
  lemma {:induction false} ValidateIff(req: Option<EmployeeRequest>, now: Instant)
    ensures Validate(req, now) == Pass <==> req.Some? && IsAcceptable(req.value, now)
  {
    if req.Some? {
      var r := req.value;
      TextFieldGuard(r.firstName, MaxNameLength, FirstNameRequired, FirstNameFormat);
      TextFieldGuard(r.lastName, MaxNameLength, LastNameRequired, LastNameFormat);
      EmailGuard(r.email);
      SalaryGuard(r.salary);
      TextFieldGuard(r.jobTitle, MaxJobTitleLength, JobTitleRequired, JobTitleFormat);
      var g := Groups(r, now);
      FirstFailurePass(g);
      AllPassOfSix(g);
    }
  }

  /** A first name that is null or blank after trimming is reported as missing, never as
      malformed, whatever the other fields hold. */
  lemma {:induction false} BlankFirstNameIsRequired(r: EmployeeRequest, now: Instant)
    requires r.firstName.None? || AllTrimmable(r.firstName.value)
    ensures Validate(Some(r), now) == Fail("First name is required")
  {
    TextFieldGuard(r.firstName, MaxNameLength, FirstNameRequired, FirstNameFormat);
  }
}
