/**
 * The scraper service: it signs in to BuildingConnected through the browser
 * (email, identity verification, password, then the one-time code mailed by
 * the sign-in service), reads the company's employee table row by row into
 * employee records, writes them out, and closes the browser.
 *
 * Every outbound navigation is first passed through a rate limiter that
 * keeps granted requests at least `RateLimit` milliseconds apart. The
 * browser, the files and the clock are the abstract surface of the
 * Automation module; the mailbox is the Emailhlp module's.
 */
module Scraper {
  import opened Results
  import opened JsText
  import opened Automation
  import opened EmployeeDto
  import Emailhlp
  import opened FilterMaps

  /** Minimum spacing of rate-limited requests, in milliseconds. */
  const RateLimit: int := 3000

  const JsonFile: string := "buildingconnected_data.json"
  const CsvFile: string := "buildingconnected_data.csv"

  /** What `scrapeEmployees` and the steps inside it throw. */
  datatype ScrapeError =
    | CredentialsNotConfigured                // "BuildingConnected credentials not configured"
    | StepFailed(step: Step)                  // an awaited browser or file call rejected
    | OtpFailed(cause: Emailhlp.CodeError)    // getVerificationCode rejected

  datatype Outcome = Pass | Fail(error: ScrapeError)

  // ---------------------------------------------------------------------
  // Rate limiting
  // ---------------------------------------------------------------------

  /**
   * How long `enforceRateLimit` waits when the clock reads `now` and the
   * previous grant was at `last`: until `RateLimit` ms have passed since
   * that grant, or not at all if they already have.
   */
  function WaitMs(last: int, now: int): (w: int)
    ensures 0 <= w
    ensures w == 0 <==> RateLimit <= now - last
    ensures last + RateLimit <= now + w
    ensures w > 0 ==> now + w == last + RateLimit
    ensures last <= now ==> w <= RateLimit
  {
    var elapsed := now - last;
    if elapsed < RateLimit then RateLimit - elapsed else 0
  }

  /** Each grant in `gs` comes at least `RateLimit` ms after the one before it, the first after `last`. */
  predicate SpacedAfter(last: int, gs: seq<int>)
    decreases |gs|
  {
    gs == [] || (last + RateLimit <= gs[0] && SpacedAfter(gs[0], gs[1..]))
  }

  /** The most recent grant: the last of `gs`, or `last` if there is none. */
  function LatestGrant(last: int, gs: seq<int>): int {
    if gs == [] then last else gs[|gs| - 1]
  }

  /** Spacing composes: a spaced run followed by a run spaced after its latest grant is spaced. */
  lemma {:induction false} SpacedAppend(last: int, xs: seq<int>, ys: seq<int>)
    requires SpacedAfter(last, xs)
    requires SpacedAfter(LatestGrant(last, xs), ys)
    ensures SpacedAfter(last, xs + ys)
    ensures LatestGrant(last, xs + ys) == LatestGrant(LatestGrant(last, xs), ys)
    decreases |xs|
  {
    if xs != [] {
      assert (xs + ys)[0] == xs[0];
      assert (xs + ys)[1..] == xs[1..] + ys;
      assert LatestGrant(xs[0], xs[1..]) == LatestGrant(last, xs);
      SpacedAppend(xs[0], xs[1..], ys);
    } else {
      assert xs + ys == ys;
    }
  }

  /** In a spaced run of grants, any two are at least `RateLimit` ms apart per grant between them. */
  lemma {:induction false} SpacedPairwise(last: int, gs: seq<int>, i: nat, j: nat)
    requires SpacedAfter(last, gs)
    requires i < j < |gs|
    ensures gs[j] - gs[i] >= RateLimit * (j - i)
    decreases j
  {
    if i + 1 < j {
      SpacedPairwise(last, gs, i, j - 1);
    }
    SpacedStep(last, gs, j - 1);
  }

  lemma {:induction false} SpacedStep(last: int, gs: seq<int>, k: nat)
    requires SpacedAfter(last, gs)
    requires k + 1 < |gs|
    ensures gs[k] + RateLimit <= gs[k + 1]
    decreases k
  {
    if k > 0 {
      SpacedStep(gs[0], gs[1..], k - 1);
    }
  }

  /** The clock readings of the grants recorded in a log, in order. */
  function Grants(log: seq<Step>): (gs: seq<int>)
    ensures |gs| <= |log|
  {
    if log == [] then []
    else Grants(log[..|log| - 1]) + (if log[|log| - 1].Throttle? then [log[|log| - 1].at] else [])
  }

  lemma {:induction false} GrantsAppend(a: seq<Step>, b: seq<Step>)
    ensures Grants(a + b) == Grants(a) + Grants(b)
    decreases |b|
  {
    if b == [] {
      assert a + b == a;
    } else {
      assert (a + b)[..|a + b| - 1] == a + b[..|b| - 1];
      assert (a + b)[|a + b| - 1] == b[|b| - 1];
      GrantsAppend(a, b[..|b| - 1]);
    }
  }

  /** A log with no rate-limiter grant in it has no grants. */
  lemma {:induction false} GrantsNone(log: seq<Step>)
    requires forall k :: 0 <= k < |log| ==> !log[k].Throttle?
    ensures Grants(log) == []
    decreases |log|
  {
    if log != [] {
      GrantsNone(log[..|log| - 1]);
    }
  }

  // ---------------------------------------------------------------------
  // The login sequence
  // ---------------------------------------------------------------------

  /** The calls `login` makes after its rate-limit grant, in order, when none of them fails. */
  function LoginActions(email: string, password: string, otp: string): seq<Step> {
    [ Goto(LoginPage), Pause(4000),
      Fill(EmailField, email), Click(NextButton),
      WaitFor(VerifyButton), Click(VerifyButton),
      WaitFor(PasswordField), Fill(PasswordField, password), Click(SubmitButton),
      WaitFor(CodeField), FetchOtp,
      Fill(CodeField, otp), Click(SubmitButton),
      WaitNavigation, LoggedIn ]
  }

  /** The login sequence call by call. */
  lemma LoginCalls(email: string, password: string, otp: string)
    ensures var plan := LoginActions(email, password, otp);
      && |plan| == 15 && plan[0] == Goto(LoginPage) && plan[1] == Pause(4000)
      && plan[2] == Fill(EmailField, email) && plan[3] == Click(NextButton)
      && plan[4] == WaitFor(VerifyButton) && plan[5] == Click(VerifyButton)
      && plan[6] == WaitFor(PasswordField) && plan[7] == Fill(PasswordField, password) && plan[8] == Click(SubmitButton)
      && plan[9] == WaitFor(CodeField) && plan[10] == FetchOtp
      && plan[11] == Fill(CodeField, otp) && plan[12] == Click(SubmitButton)
      && plan[13] == WaitNavigation && plan[14] == LoggedIn
  {
  }

  /**
   * The messages a login that made the first `m` of its calls fetched: the
   * latest one of the search once it reached the code request (call 10),
   * and none before.
   */
  function LoginFetches(m: nat, search: Emailhlp.SearchOutcome): seq<Emailhlp.MessageId> {
    if 11 <= m then Emailhlp.LatestFetch(search) else []
  }

  /** The code the login types: the mailbox's code, when it delivers one. */
  function OtpText(code: Result<string, Emailhlp.CodeError>): string {
    if code.Ok? then code.value else ""
  }

  /** Every occurrence of `b` in `t` comes after some occurrence of `a`. */
  predicate Precedes(t: seq<Step>, a: Step, b: Step) {
    forall j :: 0 <= j < |t| && t[j] == b ==> a in t[..j]
  }

  /** Every occurrence of `a` in `t` is immediately followed by `b`, unless it is the last entry. */
  predicate Then(t: seq<Step>, a: Step, b: Step) {
    forall i :: 0 <= i < |t| - 1 && t[i] == a ==> t[i + 1] == b
  }

  /** Every navigation in `t` directly follows a rate-limiter grant. */
  predicate ThrottledNavigation(t: seq<Step>) {
    forall j :: 0 <= j < |t| && t[j].Goto? ==> 0 < j && t[j - 1].Throttle?
  }

  lemma PrecedesByPosition(t: seq<Step>, a: Step, b: Step, i: nat)
    requires i < |t| && t[i] == a
    requires forall j :: 0 <= j <= i ==> t[j] != b
    ensures Precedes(t, a, b)
  {
    forall j | 0 <= j < |t| && t[j] == b ensures a in t[..j] {
      assert t[..j][i] == a;
    }
  }

  lemma PrecedesPrefix(t: seq<Step>, u: seq<Step>, a: Step, b: Step)
    requires Precedes(t, a, b) && u <= t
    ensures Precedes(u, a, b)
  {
    forall j | 0 <= j < |u| && u[j] == b ensures a in u[..j] {
      assert t[j] == b;
      assert u[..j] == t[..j];
    }
  }

  lemma ThenPrefix(t: seq<Step>, u: seq<Step>, a: Step, b: Step)
    requires Then(t, a, b) && u <= t
    ensures Then(u, a, b)
  {
    forall i | 0 <= i < |u| - 1 && u[i] == a ensures u[i + 1] == b {
      assert t[i] == a && t[i + 1] == u[i + 1];
    }
  }

  lemma ThenByPosition(t: seq<Step>, a: Step, b: Step, i: nat)
    requires i + 1 < |t| && t[i] == a && t[i + 1] == b
    requires forall j :: 0 <= j < |t| && j != i ==> t[j] != a
    ensures Then(t, a, b)
  {
  }

  /** The login page is opened right after the rate-limit grant, on every run however far it gets. */
  lemma LoginThrottled(email: string, password: string, otp: string, t: int, done: seq<Step>)
    requires done <= LoginActions(email, password, otp)
    ensures ThrottledNavigation([Throttle(t)] + done)
  {
    var plan := LoginActions(email, password, otp);
    var run := [Throttle(t)] + done;
    forall j | 0 <= j < |run| && run[j].Goto? ensures 0 < j && run[j - 1].Throttle? {
      if j > 0 {
        assert run[j] == plan[j - 1];
        assert j - 1 == 0;
      }
    }
  }

  /** The email is entered and NEXT clicked right after; the verify button is clicked right after it appears. */
  lemma LoginIdentityOrder(email: string, password: string, otp: string, done: seq<Step>)
    requires done <= LoginActions(email, password, otp)
    ensures Then(done, Fill(EmailField, email), Click(NextButton))
    ensures Then(done, WaitFor(VerifyButton), Click(VerifyButton))
  {
    var plan := LoginActions(email, password, otp);
    ThenByPosition(plan, Fill(EmailField, email), Click(NextButton), 2);
    ThenByPosition(plan, WaitFor(VerifyButton), Click(VerifyButton), 4);
    ThenPrefix(plan, done, Fill(EmailField, email), Click(NextButton));
    ThenPrefix(plan, done, WaitFor(VerifyButton), Click(VerifyButton));
  }

  /** The password is entered only after its field appears, and submitted right after. */
  lemma LoginPasswordOrder(email: string, password: string, otp: string, done: seq<Step>)
    requires done <= LoginActions(email, password, otp)
    ensures Precedes(done, WaitFor(PasswordField), Fill(PasswordField, password))
    ensures Then(done, Fill(PasswordField, password), Click(SubmitButton))
  {
    var plan := LoginActions(email, password, otp);
    PrecedesByPosition(plan, WaitFor(PasswordField), Fill(PasswordField, password), 6);
    PrecedesPrefix(plan, done, WaitFor(PasswordField), Fill(PasswordField, password));
    ThenByPosition(plan, Fill(PasswordField, password), Click(SubmitButton), 7);
    ThenPrefix(plan, done, Fill(PasswordField, password), Click(SubmitButton));
  }

  /**
   * The mailbox is asked for the code only after the code field appears,
   * and the code is entered right after it arrives.
   */
  lemma LoginCodeOrder(email: string, password: string, otp: string, done: seq<Step>)
    requires done <= LoginActions(email, password, otp)
    ensures Precedes(done, WaitFor(CodeField), FetchOtp)
    ensures Then(done, FetchOtp, Fill(CodeField, otp))
  {
    var plan := LoginActions(email, password, otp);
    PrecedesByPosition(plan, WaitFor(CodeField), FetchOtp, 9);
    PrecedesPrefix(plan, done, WaitFor(CodeField), FetchOtp);
    ThenByPosition(plan, FetchOtp, Fill(CodeField, otp), 10);
    ThenPrefix(plan, done, FetchOtp, Fill(CodeField, otp));
  }

  /** The code is submitted right after it is entered, and success is logged only after the navigation that follows. */
  lemma LoginSubmitOrder(email: string, password: string, otp: string, done: seq<Step>)
    requires done <= LoginActions(email, password, otp)
    ensures Then(done, Fill(CodeField, otp), Click(SubmitButton))
    ensures Precedes(done, WaitNavigation, LoggedIn)
  {
    var plan := LoginActions(email, password, otp);
    ThenByPosition(plan, Fill(CodeField, otp), Click(SubmitButton), 11);
    ThenPrefix(plan, done, Fill(CodeField, otp), Click(SubmitButton));
    PrecedesByPosition(plan, WaitNavigation, LoggedIn, 13);
    PrecedesPrefix(plan, done, WaitNavigation, LoggedIn);
  }

  /**
   * The error a failed call raises: a rejected browser or file call is
   * rethrown as it is; the code request fails with the mailbox's error.
   */
  predicate Raised(e: ScrapeError, last: Step, code: Result<string, Emailhlp.CodeError>) {
    if last == FetchOtp then code.Err? && e == OtpFailed(code.error) else e == StepFailed(last)
  }

  // ---------------------------------------------------------------------
  // Where a run stops
  // ---------------------------------------------------------------------

  /**
   * A call awaited on the browser or the file system, which may reject:
   * every step but the rate-limiter grant, the code request (which fails
   * with the mailbox's error instead) and the success log line.
   */
  predicate Awaited(s: Step) {
    !s.Throttle? && s != FetchOtp && s != LoggedIn
  }

  /** Every awaited call of `t`, made from log position `base` on, resolved. */
  predicate Resolved(failAt: set<nat>, base: nat, t: seq<Step>)
    decreases |t|
  {
    t == [] || (Resolved(failAt, base, t[..|t| - 1]) && (Awaited(t[|t| - 1]) ==> base + |t| - 1 !in failAt))
  }

  /** In a resolved stretch, each awaited call resolved. */
  lemma {:induction false} ResolvedAt(failAt: set<nat>, base: nat, t: seq<Step>, k: nat)
    requires Resolved(failAt, base, t) && k < |t| && Awaited(t[k])
    ensures base + k !in failAt
    decreases |t|
  {
    if k < |t| - 1 {
      assert t[..|t| - 1][k] == t[k];
      ResolvedAt(failAt, base, t[..|t| - 1], k);
    }
  }

  /** A prefix of a resolved stretch is resolved. */
  lemma {:induction false} ResolvedPrefix(failAt: set<nat>, base: nat, t: seq<Step>, i: nat)
    requires Resolved(failAt, base, t) && i <= |t|
    ensures Resolved(failAt, base, t[..i])
    decreases |t|
  {
    if i < |t| {
      assert t[..|t| - 1][..i] == t[..i];
      ResolvedPrefix(failAt, base, t[..|t| - 1], i);
    } else {
      assert t[..i] == t;
    }
  }

  /**
   * The calls `done`, made from log position `base` on, ended as `err` says:
   * every call before the last resolved; without an error the last one did
   * too; an error is the one the last call raised, and when that is a
   * rejection, the last call is awaited and did reject.
   */
  predicate Settled(failAt: set<nat>, base: nat, done: seq<Step>, err: Option<ScrapeError>, code: Result<string, Emailhlp.CodeError>) {
    && |done| > 0
    && Resolved(failAt, base, done[..|done| - 1])
    && match err
       case None => Resolved(failAt, base, done)
       case Some(e) =>
         && Raised(e, done[|done| - 1], code)
         && (e.StepFailed? ==> Awaited(done[|done| - 1]) && base + |done| - 1 in failAt)
  }

  /** The error an outcome carries, if any. */
  function OutcomeError(r: Outcome): Option<ScrapeError> {
    if r.Fail? then Some(r.error) else None
  }

  /** The error a result carries, if any. */
  function ResultError<T>(r: Result<T, ScrapeError>): Option<ScrapeError> {
    if r.Err? then Some(r.error) else None
  }

  /** One more call of `plan` that resolved, or cannot reject, extends the resolved prefix. */
  lemma ResolvedStep(failAt: set<nat>, base: nat, plan: seq<Step>, j: nat)
    requires j < |plan| && Resolved(failAt, base, plan[..j])
    requires Awaited(plan[j]) ==> base + j !in failAt
    ensures Resolved(failAt, base, plan[..j + 1])
  {
    assert plan[..j + 1][..j] == plan[..j];
  }

  /** Stopping at call `j` of `plan`, the calls before it having resolved, with the failure it raised. */
  lemma StopAt(failAt: set<nat>, base: nat, plan: seq<Step>, j: nat, e: ScrapeError, code: Result<string, Emailhlp.CodeError>)
    requires j < |plan| && Resolved(failAt, base, plan[..j])
    requires Raised(e, plan[j], code)
    requires e.StepFailed? ==> Awaited(plan[j]) && base + j in failAt
    ensures Settled(failAt, base, plan[..j + 1], Some(e), code)
  {
    assert plan[..j + 1][..j] == plan[..j];
  }

  /** A plan whose calls all resolved ran to its end. */
  lemma Completed(failAt: set<nat>, base: nat, plan: seq<Step>, code: Result<string, Emailhlp.CodeError>)
    requires |plan| > 0 && Resolved(failAt, base, plan)
    ensures Settled(failAt, base, plan[..|plan|], None, code)
  {
    assert plan[..|plan|] == plan;
  }

  /** Two resolved stretches, the second made right after the first, are one resolved stretch. */
  lemma {:induction false} ResolvedJoin(failAt: set<nat>, base: nat, a: seq<Step>, b: seq<Step>)
    requires Resolved(failAt, base, a) && Resolved(failAt, base + |a|, b)
    ensures Resolved(failAt, base, a + b)
    decreases |b|
  {
    if b == [] {
      assert a + b == a;
    } else {
      assert (a + b)[..|a + b| - 1] == a + b[..|b| - 1];
      assert (a + b)[|a + b| - 1] == b[|b| - 1];
      ResolvedJoin(failAt, base, a, b[..|b| - 1]);
    }
  }

  /** Calls that all resolved, followed by a stretch that settled, settle as that stretch did. */
  lemma SettledAfter(failAt: set<nat>, base: nat, a: seq<Step>, done: seq<Step>, err: Option<ScrapeError>, code: Result<string, Emailhlp.CodeError>)
    requires Resolved(failAt, base, a) && Settled(failAt, base + |a|, done, err, code)
    ensures Settled(failAt, base, a + done, err, code)
  {
    assert (a + done)[..|a + done| - 1] == a + done[..|done| - 1];
    assert (a + done)[|a + done| - 1] == done[|done| - 1];
    ResolvedJoin(failAt, base, a, done[..|done| - 1]);
    if err.None? {
      ResolvedJoin(failAt, base, a, done);
    }
  }

  /**
   * The waits of `login` hold it up: once a later call has been made, the
   * wait before it resolved. The password is entered (call 7) only after the
   * wait for `#password` (call 6) resolved, the code is requested (call 10)
   * only after the wait for `#VerificationCode` (call 9) resolved, and
   * success is logged (call 14) only after the wait for the navigation
   * (call 13) resolved.
   */
  lemma LoginWaitsResolved(failAt: set<nat>, base: nat, email: string, password: string, otp: string, m: nat,
                           err: Option<ScrapeError>, code: Result<string, Emailhlp.CodeError>)
    requires 0 < m <= |LoginActions(email, password, otp)|
    requires Settled(failAt, base, LoginActions(email, password, otp)[..m], err, code)
    ensures 7 < m ==> var plan := LoginActions(email, password, otp);
      plan[7] == Fill(PasswordField, password) && plan[6] == WaitFor(PasswordField) && base + 6 !in failAt
    ensures 10 < m ==> var plan := LoginActions(email, password, otp);
      plan[10] == FetchOtp && plan[9] == WaitFor(CodeField) && base + 9 !in failAt
    ensures 14 < m ==> var plan := LoginActions(email, password, otp);
      plan[14] == LoggedIn && plan[13] == WaitNavigation && base + 13 !in failAt
  {
    var plan := LoginActions(email, password, otp);
    LoginCalls(email, password, otp);
    var before := plan[..m][..m - 1];
    if 7 < m {
      assert before[6] == plan[6];
      ResolvedAt(failAt, base, before, 6);
    }
    if 10 < m {
      assert before[9] == plan[9];
      ResolvedAt(failAt, base, before, 9);
    }
    if 14 < m {
      assert before[13] == plan[13];
      ResolvedAt(failAt, base, before, 13);
    }
  }

  // ---------------------------------------------------------------------
  // Reading the employee table
  // ---------------------------------------------------------------------

  /** The calls `extractEmployeeData` makes after its rate-limit grant, when none fails. */
  const ExtractActions: seq<Step> := [Goto(EmployeesPage), WaitFor(TableContainer), QueryAll(TableRow)]

  /**
   * A required field, read with `$eval(..., el => el.textContent.trim())`:
   * nothing (the row is skipped) when the lookup rejects or finds no element.
   */
  function Required(l: Lookup): (v: Option<string>)
    ensures v.Some? <==> l.Element?
    ensures v.Some? ==> v.value == Trim(l.text) && Trimmed(v.value)
  {
    if l.Element? then TrimSpec(l.text); Some(Trim(l.text)) else None
  }

  /**
   * An optional field, read with `$(...).then(el => el ? trimmed text : '').catch(() => '')`:
   * the empty string when the lookup rejects or finds no element.
   */
  function Optional(l: Lookup): (v: string)
    ensures !l.Element? ==> v == ""
    ensures l.Element? ==> v == Trim(l.text)
    ensures Trimmed(v)
  {
    if l.Element? then TrimSpec(l.text); Trim(l.text) else ""
  }

  /**
   * The lead flag, read with `$(...).then(() => 'Yes').catch(() => 'No')`:
   * "Yes" whenever the lookup resolves, even to no element.
   */
  function LeadFlag(l: Lookup): (v: string)
    ensures v == "Yes" || v == "No"
    ensures v == "No" <==> l.Rejected?
  {
    if l.Rejected? then "No" else "Yes"
  }

  /** A row can be read when both its name and its email lookups find an element. */
  predicate Readable(row: Row) {
    row.name.Element? && row.email.Element?
  }

  /** The record of one row, or nothing when its name or email cannot be read. */
  function RowRecord(row: Row): (e: Option<Employee>)
    ensures e.Some? <==> Readable(row)
    ensures e.Some? ==> e.value.isLead == "Yes" || e.value.isLead == "No"
  {
    match (Required(row.name), Required(row.email))
    case (Some(name), Some(email)) =>
      Some(Employee(
        initials := Optional(row.avatar),
        name := name,
        email := email,
        phone := Optional(row.phone),
        title := Optional(row.title),
        isLead := LeadFlag(row.leadToggle)))
    case _ => None
  }

  /**
   * Every text field of a record is trimmed: name and email are their
   * elements' trimmed texts, an optional field is its element's trimmed text
   * or '' when there is none, and the lead flag is "No" exactly when its
   * lookup rejected.
   */
  lemma RecordFields(row: Row)
    requires RowRecord(row).Some?
    ensures var e := RowRecord(row).value;
      && Trimmed(e.initials) && Trimmed(e.name) && Trimmed(e.email) && Trimmed(e.phone) && Trimmed(e.title)
      && e.name == Trim(row.name.text) && e.email == Trim(row.email.text)
      && e.phone == (if row.phone.Element? then Trim(row.phone.text) else "")
      && e.title == (if row.title.Element? then Trim(row.title.text) else "")
      && e.initials == (if row.avatar.Element? then Trim(row.avatar.text) else "")
      && (e.isLead == "No" <==> row.leadToggle.Rejected?)
  {
    var name, email := Required(row.name), Required(row.email);
    assert name.Some? && email.Some?;
  }

  /** The records of the rows that can be read, in row order. */
  function ExtractRows(rows: seq<Row>): (out: seq<Employee>)
    ensures |out| <= |rows|
  {
    FilterMap(RowRecord, rows)
  }

  /** Reading more rows only appends records: the records of a prefix of the rows are a prefix of the records. */
  lemma ExtractPrefix(rows: seq<Row>, i: nat)
    requires i <= |rows|
    ensures ExtractRows(rows[..i]) <= ExtractRows(rows)
  {
    PrefixOutput(RowRecord, rows, i);
  }

  /**
   * A readable row's record sits in the output at the position given by the
   * number of readable rows before it.
   */
  lemma RecordPosition(rows: seq<Row>, i: nat)
    requires i < |rows| && Readable(rows[i])
    ensures |ExtractRows(rows[..i])| < |ExtractRows(rows)|
    ensures ExtractRows(rows)[|ExtractRows(rows[..i])|] == RowRecord(rows[i]).value
  {
    Position(RowRecord, rows, i);
  }

  /**
   * Row order is kept: of two readable rows, the earlier row's record comes
   * first in the output.
   */
  lemma OrderKept(rows: seq<Row>, i: nat, j: nat)
    requires i < j < |rows|
    requires Readable(rows[i]) && Readable(rows[j])
    ensures |ExtractRows(rows[..i])| < |ExtractRows(rows[..j])|
  {
    RecordPosition(rows[..j], i);
    assert rows[..j][..i] == rows[..i];
  }

  /** Every record in the output is the record of some readable row, at that row's position. */
  lemma RecordOrigin(rows: seq<Row>, k: nat)
    requires k < |ExtractRows(rows)|
    ensures exists i :: 0 <= i < |rows| && |ExtractRows(rows[..i])| == k && RowRecord(rows[i]) == Some(ExtractRows(rows)[k])
  {
    var i := Origin(RowRecord, rows, k);
  }

  /** No row is dropped exactly when every row can be read. */
  lemma NoneSkipped(rows: seq<Row>)
    ensures |ExtractRows(rows)| == |rows| <==> forall i :: 0 <= i < |rows| ==> Readable(rows[i])
  {
    if forall i :: 0 <= i < |rows| ==> Readable(rows[i]) {
      NoneDropped(RowRecord, rows);
    } else {
      var i :| 0 <= i < |rows| && !Readable(rows[i]);
      OneDropped(RowRecord, rows, i);
    }
  }


  // ---------------------------------------------------------------------
  // The service
  // ---------------------------------------------------------------------

  /** `!value` of a configuration value: absent or the empty string. */
  predicate Missing(v: Option<string>) {
    v.None? || v.value == ""
  }

  /** The browser start-up calls made before the credentials are checked. */
  const LaunchSteps: seq<Step> := [Launch, NewContext, NewPage]

  /** The CSV write the export makes for these records: one headed by `CsvHeader`, none when it gives no header. */
  function CsvWrites(data: seq<Employee>): seq<Step> {
    match Emailhlp.CsvHeader(data)
    case None => []
    case Some(header) => [WriteCsv(CsvFile, header)]
  }

  /** No navigation and no rate-limiter grant happens in `t`. */
  predicate Quiet(t: seq<Step>) {
    forall k :: 0 <= k < |t| ==> !t[k].Goto? && !t[k].Throttle?
  }

  lemma QuietFacts(t: seq<Step>)
    requires Quiet(t)
    ensures ThrottledNavigation(t) && Grants(t) == []
  {
    GrantsNone(t);
  }

  /** A plan that neither grants nor closes the browser, and navigates only as its first call. */
  predicate NavigatesFirst(plan: seq<Step>) {
    forall k :: 0 <= k < |plan| ==> !plan[k].Throttle? && plan[k] != Close && (k > 0 ==> !plan[k].Goto?)
  }

  /**
   * A rate-limiter grant followed by any prefix of a plan that navigates
   * only as its first call and neither grants nor closes: navigation is
   * throttled, the browser is not closed, and the grant is the only one.
   */
  lemma GrantedSegment(g: int, plan: seq<Step>, done: seq<Step>)
    requires done <= plan
    requires NavigatesFirst(plan)
    ensures ThrottledNavigation([Throttle(g)] + done)
    ensures Close !in [Throttle(g)] + done
    ensures Grants([Throttle(g)] + done) == [g]
  {
    var run := [Throttle(g)] + done;
    forall j | 0 <= j < |run| && run[j].Goto? ensures 0 < j && run[j - 1].Throttle? {
      if j > 0 {
        assert run[j] == plan[j - 1];
      }
    }
    assert forall k :: 0 <= k < |done| ==> done[k] == plan[k];
    GrantsNone(done);
    GrantsAppend([Throttle(g)], done);
    assert Grants([Throttle(g)]) == Grants([]) + [g];
  }

  /** One grant at least `RateLimit` after `last` is a spaced run whose latest grant is itself. */
  lemma SpacedOne(last: int, g: int)
    requires last + RateLimit <= g
    ensures SpacedAfter(last, [g]) && LatestGrant(last, [g]) == g
  {
    assert [g][1..] == [];
  }

  /**
   * A stretch of a run is orderly after a grant at `last` when every
   * navigation in it follows a grant, its grants are each at least
   * `RateLimit` after the previous one (the first after `last`), and its
   * latest grant is `latest`.
   */
  ghost predicate Orderly(seg: seq<Step>, last: int, latest: int) {
    ThrottledNavigation(seg) && SpacedAfter(last, Grants(seg)) && LatestGrant(last, Grants(seg)) == latest
  }

  /** A stretch without navigation or grants is orderly and leaves the latest grant as it was. */
  lemma QuietOrderly(q: seq<Step>, last: int)
    requires Quiet(q)
    ensures Orderly(q, last, last)
  {
    QuietFacts(q);
  }

  /** A grant spaced after `last`, followed by part of a plan that navigates only first, is orderly. */
  lemma GrantedOrderly(last: int, g: int, plan: seq<Step>, done: seq<Step>)
    requires last + RateLimit <= g
    requires done <= plan
    requires NavigatesFirst(plan)
    ensures Orderly([Throttle(g)] + done, last, g)
    ensures Close !in [Throttle(g)] + done
  {
    GrantedSegment(g, plan, done);
    SpacedOne(last, g);
  }

  /** Two orderly stretches, the second after the first's latest grant, join into one. */
  lemma OrderlyJoin(a: seq<Step>, b: seq<Step>, last: int, mid: int, latest: int)
    requires Orderly(a, last, mid) && Orderly(b, mid, latest)
    ensures Orderly(a + b, last, latest)
  {
    var t := a + b;
    forall j | 0 <= j < |t| && t[j].Goto? ensures 0 < j && t[j - 1].Throttle? {
      if j < |a| {
        assert t[j] == a[j];
        assert t[j - 1] == a[j - 1];
      } else {
        assert t[j] == b[j - |a|];
        assert t[j - 1] == b[j - |a| - 1];
      }
    }
    GrantsAppend(a, b);
    SpacedAppend(last, Grants(a), Grants(b));
  }

  lemma LoginNavigatesFirst(email: string, password: string, otp: string)
    ensures NavigatesFirst(LoginActions(email, password, otp))
  {
  }

  lemma ExtractNavigatesFirst()
    ensures NavigatesFirst(ExtractActions)
  {
  }

  /** The three browser start-up calls made from log position `n` on all succeed. */
  predicate Launched(failAt: set<nat>, n: nat) {
    n !in failAt && n + 1 !in failAt && n + 2 !in failAt
  }

  /** The calls logged before a stretch, then its first calls and the rest, are those calls and the whole stretch. */
  lemma AppendSteps(pre: seq<Step>, a: seq<Step>, b: seq<Step>)
    ensures pre + a + b == pre + (a + b)
  {
  }

  /**
   * A login cut short after its grant made the first calls of everything
   * the `try` body would do: a prefix of the grant, the login, the second
   * grant and the table calls.
   */
  lemma LoginCut(g: int, plan: seq<Step>, m: nat, g2: int)
    requires m <= |plan|
    ensures [Throttle(g)] + plan[..m] <= [Throttle(g)] + plan + [Throttle(g2)] + ExtractActions
  {
    assert ([Throttle(g)] + plan + [Throttle(g2)] + ExtractActions)[..m + 1] == [Throttle(g)] + plan[..m];
  }

  /** A table read cut short after `head` is a prefix of `head` and the whole read. */
  lemma TableCut(head: seq<Step>, m: nat)
    requires m <= |ExtractActions|
    ensures head + ExtractActions[..m] <= head + ExtractActions
  {
    assert (head + ExtractActions)[..|head| + m] == head + ExtractActions[..m];
  }

  /**
   * The calls of a login with the calls `plan` that stopped after `m1` of
   * them, and, when it completed, of the table read after the grant `g2`
   * that stopped after `m2` of its calls.
   */
  function CollectCalls(g1: int, plan: seq<Step>, g2: int, m1: nat, m2: nat): seq<Step>
    requires m1 <= |plan| && m2 <= |ExtractActions|
  {
    if m1 < |plan| then [Throttle(g1)] + plan[..m1]
    else [Throttle(g1)] + plan + [Throttle(g2)] + ExtractActions[..m2]
  }

  /** Wherever the login or the table read stopped, its calls begin the calls of a full read. */
  lemma CollectCallsBegin(g1: int, plan: seq<Step>, g2: int, m1: nat, m2: nat)
    requires m1 <= |plan| && m2 <= |ExtractActions|
    ensures CollectCalls(g1, plan, g2, m1, m2) <= [Throttle(g1)] + plan + [Throttle(g2)] + ExtractActions
    ensures m1 == |plan| && m2 == |ExtractActions| ==>
      CollectCalls(g1, plan, g2, m1, m2) == [Throttle(g1)] + plan + [Throttle(g2)] + ExtractActions
  {
    if m1 < |plan| {
      LoginCut(g1, plan, m1, g2);
    } else {
      TableCut([Throttle(g1)] + plan + [Throttle(g2)], m2);
      assert ExtractActions[..|ExtractActions|] == ExtractActions;
    }
  }

  /**
   * Every call the `try` body of `scrapeEmployees` makes when nothing
   * fails: the grant `first`, the login, the second grant `Throttle(g2)`,
   * the table calls and the writes of `data`.
   */
  function TryCalls(first: Step, email: string, password: string, otp: string, g2: int, data: seq<Employee>): seq<Step> {
    [first] + LoginActions(email, password, otp) + [Throttle(g2)] + ExtractActions + [WriteJson(JsonFile)] + CsvWrites(data)
  }

  /** Calls that stopped within the login or the table read are a prefix of the whole `try` body. */
  lemma ReadCut(seg: seq<Step>, g: int, email: string, password: string, otp: string, g2: int, data: seq<Employee>, m1: nat, m2: nat)
    requires m1 <= |LoginActions(email, password, otp)| && m2 <= |ExtractActions|
    requires seg == CollectCalls(g, LoginActions(email, password, otp), g2, m1, m2)
    ensures seg <= TryCalls(Throttle(g), email, password, otp, g2, data)
  {
    CollectCallsBegin(g, LoginActions(email, password, otp), g2, m1, m2);
    var head := [Throttle(g)] + LoginActions(email, password, otp) + [Throttle(g2)] + ExtractActions;
    assert TryCalls(Throttle(g), email, password, otp, g2, data)[..|head|] == head;
    assert head[..|seg|] == seg;
  }

  /**
   * The code request is call 11 of the `try` body (the grant, then the ten
   * login calls before it) and no earlier call: calls that begin the body
   * include it exactly when there are more than 11 of them.
   */
  lemma TryAsks(seg: seq<Step>, first: Step, email: string, password: string, otp: string, g2: int, data: seq<Employee>)
    requires first.Throttle?
    requires seg <= TryCalls(first, email, password, otp, g2, data)
    ensures FetchOtp in seg <==> 11 < |seg|
  {
    var plan := LoginActions(email, password, otp);
    var t := TryCalls(first, email, password, otp, g2, data);
    assert t == [first] + plan + ([Throttle(g2)] + ExtractActions + [WriteJson(JsonFile)] + CsvWrites(data));
    LoginAsksAt(email, password, otp);
    if |seg| <= 11 {
      forall i | 0 <= i < |seg|
        ensures seg[i] != FetchOtp
      {
        assert seg[i] == t[i];
        if i > 0 {
          assert t[i] == plan[i - 1];
        }
      }
    } else {
      assert seg[11] == t[11] == plan[10];
    }
  }

  /** The login asks for the code at call 10 and at no call before it. */
  lemma LoginAsksAt(email: string, password: string, otp: string)
    ensures LoginActions(email, password, otp)[10] == FetchOtp
    ensures forall j :: 0 <= j < 10 ==> LoginActions(email, password, otp)[j] != FetchOtp
  {
    LoginCalls(email, password, otp);
  }

  /**
   * The calls of the `try` body include the code request exactly when the
   * login reached it: `m1` login calls were made, the read having stopped
   * there or gone on to the writes.
   */
  lemma SessionAsks(seg: seq<Step>, read: seq<Step>, g: int, email: string, password: string, otp: string, g2: int,
                    data: seq<Employee>, m1: nat, m2: nat)
    requires m1 <= |LoginActions(email, password, otp)| && m2 <= |ExtractActions|
    requires read == CollectCalls(g, LoginActions(email, password, otp), g2, m1, m2)
    requires seg == read || (read == [Throttle(g)] + LoginActions(email, password, otp) + [Throttle(g2)] + ExtractActions && |read| <= |seg|)
    requires seg <= TryCalls(Throttle(g), email, password, otp, g2, data)
    ensures FetchOtp in seg <==> 11 <= m1
  {
    TryAsks(seg, Throttle(g), email, password, otp, g2, data);
    LoginCalls(email, password, otp);
  }

  /** The start-up calls and the close are no code request, so a run asks for the code exactly when its `try` body does. */
  lemma RunAsks(run: seq<Step>, seg: seq<Step>)
    requires run == LaunchSteps + seg + [Close]
    ensures FetchOtp in run <==> FetchOtp in seg
  {
    if FetchOtp in run {
      var i :| 0 <= i < |run| && run[i] == FetchOtp;
      assert 3 <= i < |run| - 1;
      assert seg[i - 3] == run[i];
    }
    if FetchOtp in seg {
      var i :| 0 <= i < |seg| && seg[i] == FetchOtp;
      assert run[i + 3] == seg[i];
    }
  }

  /** The start-up asks for no code. */
  lemma StartAsksNothing(run: seq<Step>)
    requires run <= LaunchSteps
    ensures FetchOtp !in run
  {
  }

  /** Writes that are a prefix of the writes of `data`, made after `head`, are a prefix of both. */
  lemma WritesCut(head: seq<Step>, writes: seq<Step>, data: seq<Employee>)
    requires writes <= [WriteJson(JsonFile)] + CsvWrites(data)
    ensures head + writes <= head + [WriteJson(JsonFile)] + CsvWrites(data)
  {
    assert head + [WriteJson(JsonFile)] + CsvWrites(data) == head + ([WriteJson(JsonFile)] + CsvWrites(data));
    assert (head + ([WriteJson(JsonFile)] + CsvWrites(data)))[..|head| + |writes|] == head + writes;
  }

  /**
   * The `try` body of a run is the stretch between the start-up calls and
   * the close; when its calls are a prefix of the full sequence, so is that
   * stretch, opening with the same grant.
   */
  lemma TryPrefix(run: seq<Step>, seg: seq<Step>, g: int, email: string, password: string, otp: string, g2: int, data: seq<Employee>)
    requires run == LaunchSteps + seg + [Close] && |seg| > 0
    requires seg <= TryCalls(Throttle(g), email, password, otp, g2, data)
    ensures run[3..|run| - 1] <= TryCalls(run[3], email, password, otp, g2, data)
  {
    assert run[3..|run| - 1] == seg;
    assert run[3] == seg[0] == Throttle(g);
  }

  /**
   * A stretch of the `try` body of `scrapeEmployees` that has begun: it
   * opens with a rate-limit grant, its navigation is throttled and its
   * grants are spaced after `last` up to `latest`, it does not close the
   * browser, and when it failed, the failure raised is that of its last call.
   */
  ghost predicate Underway(seg: seq<Step>, r: Result<seq<Employee>, ScrapeError>, last: int, latest: int, code: Result<string, Emailhlp.CodeError>) {
    && |seg| > 0 && seg[0].Throttle?
    && Orderly(seg, last, latest)
    && Close !in seg
    && (r.Err? ==> Raised(r.error, seg[|seg| - 1], code))
  }

  /** A login that stopped at its `m`-th call leaves the `try` body underway with that call's failure. */
  lemma LoginStopped(last: int, g: int, plan: seq<Step>, m: nat, e: ScrapeError, code: Result<string, Emailhlp.CodeError>)
    requires last + RateLimit <= g
    requires NavigatesFirst(plan) && 0 < m <= |plan|
    requires Raised(e, plan[m - 1], code)
    ensures Underway([Throttle(g)] + plan[..m], Err(e), last, g, code)
  {
    GrantedOrderly(last, g, plan, plan[..m]);
    assert ([Throttle(g)] + plan[..m])[m] == plan[m - 1];
  }

  /**
   * A login that ran to the end, followed by a table read that made its
   * first `m` calls: the `try` body is underway, a failure is the rejection
   * of the read's last call, and a read that made all its calls completes
   * the sequence of both.
   */
  lemma TableRead(pre: seq<Step>, last: int, g1: int, plan: seq<Step>, g2: int, m: nat, r: Result<seq<Employee>, ScrapeError>, code: Result<string, Emailhlp.CodeError>)
    requires last + RateLimit <= g1 && g1 + RateLimit <= g2
    requires NavigatesFirst(plan)
    requires 0 < m <= |ExtractActions|
    requires r.Err? ==> r.error == StepFailed(ExtractActions[m - 1])
    ensures Underway([Throttle(g1)] + plan + [Throttle(g2)] + ExtractActions[..m], r, last, g2, code)
    ensures pre + [Throttle(g1)] + plan[..|plan|] + [Throttle(g2)] + ExtractActions[..m]
         == pre + ([Throttle(g1)] + plan + [Throttle(g2)] + ExtractActions[..m])
    ensures m == |ExtractActions| ==>
      [Throttle(g1)] + plan + [Throttle(g2)] + ExtractActions[..m] == [Throttle(g1)] + plan + [Throttle(g2)] + ExtractActions
  {
    var login := [Throttle(g1)] + plan;
    var read := [Throttle(g2)] + ExtractActions[..m];
    GrantedOrderly(last, g1, plan, plan);
    ExtractNavigatesFirst();
    GrantedOrderly(g1, g2, ExtractActions, ExtractActions[..m]);
    assert read[|read| - 1] == ExtractActions[m - 1];
    UnderwayJoin(login, read, r, last, g1, g2, code);
    assert login + read == [Throttle(g1)] + plan + [Throttle(g2)] + ExtractActions[..m];
    assert plan[..|plan|] == plan;
  }

  /**
   * A stretch that has begun, followed by an orderly one that ends where
   * the run failed: together they are underway.
   */
  lemma UnderwayJoin(a: seq<Step>, b: seq<Step>, r: Result<seq<Employee>, ScrapeError>, last: int, mid: int, latest: int,
                     code: Result<string, Emailhlp.CodeError>)
    requires |a| > 0 && a[0].Throttle? && Close !in a && Orderly(a, last, mid)
    requires |b| > 0 && Close !in b && Orderly(b, mid, latest)
    requires r.Err? ==> Raised(r.error, b[|b| - 1], code)
    ensures Underway(a + b, r, last, latest, code)
  {
    OrderlyJoin(a, b, last, mid, latest);
    assert (a + b)[0] == a[0];
    assert (a + b)[|a + b| - 1] == b[|b| - 1];
  }

  /**
   * Exporting after a successful read: the writes made neither navigate nor
   * close the browser, so the `try` body stays underway, and a failed write
   * is the failure raised.
   */
  lemma Exported(seg: seq<Step>, writes: seq<Step>, read: Result<seq<Employee>, ScrapeError>, r: Result<seq<Employee>, ScrapeError>,
                 last: int, latest: int, code: Result<string, Emailhlp.CodeError>)
    requires Underway(seg, read, last, latest, code) && read.Ok?
    requires writes != [] && forall k :: 0 <= k < |writes| ==> writes[k].WriteJson? || writes[k].WriteCsv?
    requires r.Err? ==> r.error == StepFailed(writes[|writes| - 1])
    ensures Underway(seg + writes, r, last, latest, code)
  {
    QuietOrderly(writes, latest);
    OrderlyJoin(seg, writes, last, latest, latest);
    assert (seg + writes)[0] == seg[0];
    assert (seg + writes)[|seg + writes| - 1] == writes[|writes| - 1];
  }

  /**
   * The run of `scrapeEmployees` once the browser is up and the credentials
   * are present: the start-up calls, the `try` body, then the close of the
   * `finally`, whose failure replaces the body's outcome. The close is the
   * last call and the only one, and the failure of a body that closed
   * cleanly is the one its last call raised.
   */
  lemma ClosedRun(pre: seq<Step>, run: seq<Step>, seg: seq<Step>, body: Result<seq<Employee>, ScrapeError>, r: Result<seq<Employee>, ScrapeError>,
                  closed: bool, last: int, latest: int, code: Result<string, Emailhlp.CodeError>)
    requires run == LaunchSteps + seg + [Close]
    requires Underway(seg, body, last, latest, code)
    requires r == if closed then body else Err(StepFailed(Close))
    ensures pre + LaunchSteps + seg + [Close] == pre + run
    ensures |run| > 4 && run[..3] == LaunchSteps && run[3].Throttle?
    ensures run[|run| - 1] == Close && Close !in run[..|run| - 1]
    ensures closed && r.Err? ==> Raised(r.error, run[|run| - 2], code)
  {
    assert run[..|run| - 1] == LaunchSteps + seg;
    assert run[|run| - 2] == seg[|seg| - 1];
    assert run[3] == seg[0];
  }

  /** Neither the start-up calls nor the close navigate or grant: the run is as orderly as the `try` body. */
  lemma ClosedOrderly(run: seq<Step>, seg: seq<Step>, last: int, latest: int)
    requires run == LaunchSteps + seg + [Close]
    requires Orderly(seg, last, latest)
    ensures Orderly(run, last, latest)
  {
    QuietOrderly([Close], latest);
    OrderlyJoin(seg, [Close], last, latest, latest);
    QuietOrderly(LaunchSteps, last);
    OrderlyJoin(LaunchSteps, seg + [Close], last, last, latest);
    assert run == LaunchSteps + (seg + [Close]);
  }

  /** A successful run made every call of the start-up, the login, the table read, the export and the close. */
  lemma ClosedShape(run: seq<Step>, seg: seq<Step>, g: int, latest: int, email: string, password: string,
                    code: Result<string, Emailhlp.CodeError>, data: seq<Employee>)
    requires run == LaunchSteps + seg + [Close]
    requires seg == [Throttle(g)] + LoginActions(email, password, OtpText(code)) + [Throttle(latest)] + ExtractActions
                    + [WriteJson(JsonFile)] + CsvWrites(data)
    ensures |run| > 24 && run[..3] == LaunchSteps
    ensures run[3..] == [run[3]] + LoginActions(email, password, OtpText(code))
                        + [run[19]] + ExtractActions + [WriteJson(JsonFile)] + CsvWrites(data) + [Close]
  {
    assert run[3..] == seg + [Close];
    assert run[3] == seg[0] == Throttle(g);
    assert run[19] == seg[16] == Throttle(latest);
  }

  /**
   * A table read that succeeded, followed by the export's writes: the `try`
   * body stays underway and settles as the writes did, and an export that
   * succeeded completes the whole sequence of calls.
   */
  lemma SavedAfterRead(failAt: set<nat>, pre: seq<Step>, read: seq<Step>, writes: seq<Step>,
                       collected: Result<seq<Employee>, ScrapeError>, saved: Outcome, r: Result<seq<Employee>, ScrapeError>,
                       last: int, latest: int, code: Result<string, Emailhlp.CodeError>, head: seq<Step>)
    requires Underway(read, collected, last, latest, code) && collected.Ok?
    requires Settled(failAt, |pre|, read, None, code)
    requires writes != [] && forall k :: 0 <= k < |writes| ==> writes[k].WriteJson? || writes[k].WriteCsv?
    requires Settled(failAt, |pre| + |read|, writes, OutcomeError(saved), code)
    requires saved.Fail? ==> r == Err(saved.error) && saved.error == StepFailed(writes[|writes| - 1])
    requires saved.Pass? ==> r == collected && writes == [WriteJson(JsonFile)] + CsvWrites(collected.value)
    requires read == head
    ensures pre + read + writes == pre + (read + writes)
    ensures Underway(read + writes, r, last, latest, code)
    ensures Settled(failAt, |pre|, read + writes, ResultError(r), code)
    ensures r.Ok? ==> read + writes == head + [WriteJson(JsonFile)] + CsvWrites(r.value)
  {
    Exported(read, writes, collected, r, last, latest, code);
    SettledAfter(failAt, |pre|, read, writes, OutcomeError(saved), code);
  }

  /** A grant cannot reject, so a stretch that opens with one settles as the rest of it does. */
  lemma SettledAfterGrant(failAt: set<nat>, base: nat, g: int, done: seq<Step>, err: Option<ScrapeError>, code: Result<string, Emailhlp.CodeError>)
    requires Settled(failAt, base + 1, done, err, code)
    ensures Settled(failAt, base, [Throttle(g)] + done, err, code)
  {
    assert Resolved(failAt, base, [Throttle(g)]);
    SettledAfter(failAt, base, [Throttle(g)], done, err, code);
  }

  /**
   * A login that made all its calls `plan` after its grant `g1`, followed by
   * a table read after the grant `g2` that made its first `m2` calls: the
   * calls of both, after `pre`, are underway and settle as the read did.
   */
  lemma LoginThenRead(failAt: set<nat>, pre: seq<Step>, loggedLog: seq<Step>, log: seq<Step>, last: int, g1: int, plan: seq<Step>,
                      m1: nat, g2: int, m2: nat, r: Result<seq<Employee>, ScrapeError>, code: Result<string, Emailhlp.CodeError>)
    requires m1 == |plan| && loggedLog == pre + [Throttle(g1)] + plan[..m1]
    requires last + RateLimit <= g1 && g1 + RateLimit <= g2 && NavigatesFirst(plan)
    requires Settled(failAt, |pre| + 1, plan[..m1], None, code)
    requires 0 < m2 <= |ExtractActions| && log == loggedLog + [Throttle(g2)] + ExtractActions[..m2]
    requires r.Ok? ==> m2 == |ExtractActions|
    requires r.Err? ==> r.error == StepFailed(ExtractActions[m2 - 1])
    requires Settled(failAt, |loggedLog| + 1, ExtractActions[..m2], ResultError(r), code)
    ensures log == pre + ([Throttle(g1)] + plan + [Throttle(g2)] + ExtractActions[..m2])
    ensures Underway([Throttle(g1)] + plan + [Throttle(g2)] + ExtractActions[..m2], r, last, g2, code)
    ensures r.Ok? ==> [Throttle(g1)] + plan + [Throttle(g2)] + ExtractActions[..m2] == [Throttle(g1)] + plan + [Throttle(g2)] + ExtractActions
    ensures [Throttle(g1)] + plan + [Throttle(g2)] + ExtractActions[..m2] == CollectCalls(g1, plan, g2, m1, m2)
    ensures Settled(failAt, |pre|, [Throttle(g1)] + plan + [Throttle(g2)] + ExtractActions[..m2], ResultError(r), code)
  {
    TableRead(pre, last, g1, plan, g2, m2, r, code);
    LoginThenTable(failAt, |pre|, g1, plan, g2, m2, ResultError(r), code);
  }

  /** A login whose calls all resolved, then a table read that settled: the two settle as the read did. */
  lemma LoginThenTable(failAt: set<nat>, base: nat, g1: int, plan: seq<Step>, g2: int, m: nat,
                       err: Option<ScrapeError>, code: Result<string, Emailhlp.CodeError>)
    requires |plan| > 0 && Settled(failAt, base + 1, plan[..|plan|], None, code)
    requires 0 < m <= |ExtractActions| && Settled(failAt, base + |plan| + 2, ExtractActions[..m], err, code)
    ensures Settled(failAt, base, [Throttle(g1)] + plan + [Throttle(g2)] + ExtractActions[..m], err, code)
  {
    assert plan[..|plan|] == plan;
    var head := [Throttle(g1)] + plan;
    assert Resolved(failAt, base, [Throttle(g1)]);
    ResolvedJoin(failAt, base, [Throttle(g1)], plan);
    assert Resolved(failAt, base + |head|, [Throttle(g2)]);
    ResolvedJoin(failAt, base, head, [Throttle(g2)]);
    SettledAfter(failAt, base, head + [Throttle(g2)], ExtractActions[..m], err, code);
  }

  /** Start-up calls that all succeeded are a resolved stretch. */
  lemma LaunchedResolved(failAt: set<nat>, base: nat)
    requires Launched(failAt, base)
    ensures Resolved(failAt, base, LaunchSteps)
  {
    assert LaunchSteps[..0] == [];
    ResolvedStep(failAt, base, LaunchSteps, 0);
    ResolvedStep(failAt, base, LaunchSteps, 1);
    ResolvedStep(failAt, base, LaunchSteps, 2);
    assert LaunchSteps[..3] == LaunchSteps;
  }

  /**
   * The verdict of a run that got past the start-up: it succeeds exactly
   * when the mailbox delivers a code and every awaited call of the run,
   * the close included, resolves.
   */
  lemma ClosedVerdict(failAt: set<nat>, base: nat, run: seq<Step>, r: Result<seq<Employee>, ScrapeError>, code: Result<string, Emailhlp.CodeError>)
    requires |run| > 4 && run[..3] == LaunchSteps && run[|run| - 1] == Close
    requires Launched(failAt, base)
    requires base + |run| - 1 in failAt ==> r == Err(StepFailed(Close))
    requires base + |run| - 1 !in failAt ==> Settled(failAt, base + 3, run[3..|run| - 1], ResultError(r), code)
    requires r.Ok? ==> code.Ok?
    ensures r.Ok? <==> code.Ok? && Resolved(failAt, base, run)
  {
    var mid := run[3..|run| - 1];
    assert run == LaunchSteps + mid + [Close];
    if r.Ok? {
      LaunchedResolved(failAt, base);
      ResolvedJoin(failAt, base, LaunchSteps, mid);
      assert [Close][..0] == [];
      ResolvedJoin(failAt, base, LaunchSteps + mid, [Close]);
    }
    if code.Ok? && Resolved(failAt, base, run) {
      ResolvedAt(failAt, base, run, |run| - 1);
      assert mid[|mid| - 1] == run[|run| - 2];
      if Awaited(run[|run| - 2]) {
        ResolvedAt(failAt, base, run, |run| - 2);
      }
    }
  }

  /**
   * The calls of a run that got past the start-up and the credential check:
   * the start-up, then a `try` body opening with a rate-limit grant whose
   * calls are the first ones of the full sequence (`TryCalls`), then the
   * close, last and only then; no call navigates without a grant, and the
   * grants are spaced after `last` up to `latest`.
   */
  ghost predicate ClosedCalls(run: seq<Step>, last: int, latest: int, email: string, password: string,
                              code: Result<string, Emailhlp.CodeError>, data: seq<Employee>) {
    && |run| > 4 && run[..3] == LaunchSteps && run[3].Throttle?
    && run[|run| - 1] == Close && Close !in run[..|run| - 1]
    && Orderly(run, last, latest)
    && run[3..|run| - 1] <= TryCalls(run[3], email, password, OtpText(code), latest, data)
  }

  /**
   * The outcome of such a run, made after `base` other calls: a close that
   * rejects wins; a clean close leaves the body's outcome as it was, the
   * calls before its stop having resolved and its error being the one its
   * last call raised.
   */
  ghost predicate ClosedOutcome(failAt: set<nat>, base: nat, run: seq<Step>, r: Result<seq<Employee>, ScrapeError>,
                                code: Result<string, Emailhlp.CodeError>) {
    && |run| > 4
    && (base + |run| - 1 in failAt ==> r == Err(StepFailed(Close)))
    && (base + |run| - 1 !in failAt && r.Err? ==> Raised(r.error, run[|run| - 2], code))
    && (base + |run| - 1 !in failAt ==> Settled(failAt, base + 3, run[3..|run| - 1], ResultError(r), code))
  }

  /** The calls of the `try` body, wrapped by the start-up and the close, keep their order and their prefix. */
  lemma ClosedCallsHold(run: seq<Step>, seg: seq<Step>, body: Result<seq<Employee>, ScrapeError>, last: int, latest: int,
                        g: int, email: string, password: string, code: Result<string, Emailhlp.CodeError>, data: seq<Employee>)
    requires run == LaunchSteps + seg + [Close]
    requires Underway(seg, body, last, latest, code)
    requires seg <= TryCalls(Throttle(g), email, password, OtpText(code), latest, data)
    ensures ClosedCalls(run, last, latest, email, password, code, data)
  {
    ClosedRun([], run, seg, body, body, true, last, latest, code);
    ClosedOrderly(run, seg, last, latest);
    TryPrefix(run, seg, g, email, password, OtpText(code), latest, data);
  }

  /** The close decides the outcome of the run as the `finally` of `scrapeEmployees` does. */
  lemma ClosedOutcomeHolds(failAt: set<nat>, base: nat, run: seq<Step>, seg: seq<Step>, body: Result<seq<Employee>, ScrapeError>,
                           r: Result<seq<Employee>, ScrapeError>, closed: bool, last: int, latest: int, code: Result<string, Emailhlp.CodeError>)
    requires run == LaunchSteps + seg + [Close] && Launched(failAt, base)
    requires Underway(seg, body, last, latest, code)
    requires Settled(failAt, base + 3, seg, ResultError(body), code)
    requires body.Ok? ==> code.Ok?
    requires closed <==> base + |run| - 1 !in failAt
    requires r == if closed then body else Err(StepFailed(Close))
    ensures ClosedOutcome(failAt, base, run, r, code)
    ensures r.Ok? <==> code.Ok? && Resolved(failAt, base, run)
  {
    ClosedRun([], run, seg, body, r, closed, last, latest, code);
    assert run[3..|run| - 1] == seg;
    ClosedVerdict(failAt, base, run, r, code);
  }

  class ScraperService {
    /** Clock reading of the latest rate-limiter grant. */
    var lastRequestTime: int
    const clock: Clock
    const mailbox: Emailhlp.Mailbox
    /** The configured `BC_EMAIL` and `BC_PASSWORD`. */
    const email: Option<string>
    const password: Option<string>

    ghost predicate Valid()
      reads this, clock
    {
      lastRequestTime <= clock.now
    }

    /** The code the mailbox delivers when asked. */
    ghost function Code(): Result<string, Emailhlp.CodeError> {
      mailbox.code
    }

    constructor (clock: Clock, mailbox: Emailhlp.Mailbox, email: Option<string>, password: Option<string>)
      requires 0 <= clock.now
      ensures Valid() && lastRequestTime == 0
      ensures this.clock == clock && this.mailbox == mailbox && this.email == email && this.password == password
    {
      lastRequestTime := 0;
      this.clock := clock;
      this.mailbox := mailbox;
      this.email := email;
      this.password := password;
    }

    /**
     * `enforceRateLimit`: reads the clock, waits out what is left of
     * `RateLimit` since the previous grant, and records the clock reading
     * after the wait as the new grant, which the log shows. Each grant is
     * thus at least `RateLimit` after the previous one.
     */
    method EnforceRateLimit(surface: Surface) returns (started: int, waited: int)
      requires Valid()
      modifies this, clock, surface
      ensures Valid()
      ensures surface.log == old(surface.log) + [Throttle(lastRequestTime)]
      ensures old(clock.now) <= started && started + waited <= clock.now
      ensures waited == WaitMs(old(lastRequestTime), started) && waited <= RateLimit
      // the one wait made is that one, and none when the limit has already passed
      ensures clock.slept == old(clock.slept) + (if waited > 0 then [waited] else [])
      ensures lastRequestTime == clock.now
      ensures old(lastRequestTime) + RateLimit <= lastRequestTime
    {
      started := clock.Read();
      var elapsed := started - lastRequestTime;
      waited := 0;
      if elapsed < RateLimit {
        waited := RateLimit - elapsed;
        clock.Sleep(waited);
      }
      lastRequestTime := clock.Read();
      surface.Note(Throttle(lastRequestTime));
    }

    /** Performs call `k` of `plan`, the calls before it having been made after `pre`. */
    method Act(surface: Surface, s: Step, ghost pre: seq<Step>, ghost plan: seq<Step>, ghost k: nat) returns (ok: bool)
      requires k < |plan| && plan[k] == s && surface.log == pre + plan[..k]
      modifies surface
      ensures surface.log == pre + plan[..k + 1]
      ensures ok <==> |pre| + k !in surface.failAt
    {
      ok := surface.Perform(s);
      assert plan[..k + 1] == plan[..k] + [s];
    }

    /**
     * Awaits call `k` of `plan`, the calls before it having resolved: it
     * resolves too, or the run stops at it with its rejection.
     */
    method Await(surface: Surface, s: Step, ghost pre: seq<Step>, ghost plan: seq<Step>, ghost k: nat) returns (ok: bool)
      requires k < |plan| && plan[k] == s && Awaited(s) && surface.log == pre + plan[..k]
      requires Resolved(surface.failAt, |pre|, plan[..k])
      modifies surface
      ensures surface.log == pre + plan[..k + 1]
      ensures ok <==> |pre| + k !in surface.failAt
      ensures ok ==> Resolved(surface.failAt, |pre|, plan[..k + 1])
      ensures !ok ==> Settled(surface.failAt, |pre|, plan[..k + 1], Some(StepFailed(s)), Code())
    {
      ok := Act(surface, s, pre, plan, k);
      if ok {
        ResolvedStep(surface.failAt, |pre|, plan, k);
      } else {
        StopAt(surface.failAt, |pre|, plan, k, StepFailed(s), Code());
      }
    }

    /**
     * `page.waitForTimeout(ms)` as call `k` of `plan`, the calls before it
     * having resolved: when it resolves too, at least `ms` have passed on
     * the clock, and otherwise the run stops at it.
     */
    method PauseFor(surface: Surface, ms: int, ghost pre: seq<Step>, ghost plan: seq<Step>, ghost k: nat) returns (ok: bool)
      requires Valid()
      requires k < |plan| && plan[k] == Pause(ms) && surface.log == pre + plan[..k]
      requires Resolved(surface.failAt, |pre|, plan[..k])
      modifies surface, clock
      ensures Valid() && unchanged(this)
      ensures surface.log == pre + plan[..k + 1]
      ensures ok <==> |pre| + k !in surface.failAt
      ensures ok ==> old(clock.now) + ms <= clock.now && Resolved(surface.failAt, |pre|, plan[..k + 1])
      ensures clock.slept == old(clock.slept) + (if ok then [ms] else [])
      ensures !ok ==> Settled(surface.failAt, |pre|, plan[..k + 1], Some(StepFailed(Pause(ms))), Code())
    {
      ok := Await(surface, Pause(ms), pre, plan, k);
      if ok { clock.Sleep(ms); }
    }

    /** Records step `k` of `plan`, one that cannot fail, the steps before it having been made after `pre`. */
    method Record(surface: Surface, s: Step, ghost pre: seq<Step>, ghost plan: seq<Step>, ghost k: nat)
      requires k < |plan| && plan[k] == s && surface.log == pre + plan[..k]
      modifies surface
      ensures surface.log == pre + plan[..k + 1]
    {
      surface.Note(s);
      assert plan[..k + 1] == plan[..k] + [s];
    }

    /**
     * `login`: one rate-limit grant, then the fixed sequence of calls, the
     * first rejection ending it with that rejection. The calls made are
     * always the first `m` of the sequence, all of it exactly when it
     * succeeds, and the mailbox is consulted only once the code field is
     * there.
     */
    method Login(surface: Surface, email: string, password: string) returns (r: Outcome, ghost m: nat)
      requires Valid() && mailbox.Valid()
      modifies this, clock, surface, mailbox
      ensures Valid()
      ensures old(lastRequestTime) + RateLimit <= lastRequestTime
      ensures 0 < m <= |LoginActions(email, password, OtpText(Code()))|
      ensures surface.log == old(surface.log) + [Throttle(lastRequestTime)] + LoginActions(email, password, OtpText(Code()))[..m]
      ensures r.Pass? <==> m == |LoginActions(email, password, OtpText(Code()))|
      ensures r.Fail? ==> Raised(r.error, LoginActions(email, password, OtpText(Code()))[m - 1], Code())
      // the calls before the stop resolved, and the stop is a rejection or the mailbox's failure
      ensures Settled(surface.failAt, |old(surface.log)| + 1, LoginActions(email, password, OtpText(Code()))[..m], OutcomeError(r), Code())
      ensures mailbox.fetched == old(mailbox.fetched) + LoginFetches(m, mailbox.search)
      ensures 11 < m ==> Code().Ok?
      // the email is entered at least 4000 ms after the grant that let the login page open
      ensures 2 < m ==> lastRequestTime + 4000 <= clock.now
    {
      var _, _ := EnforceRateLimit(surface);
      r, m := OpenLogin(surface, email, password, surface.log, LoginActions(email, password, OtpText(Code())));
    }

    /*
     * The calls of `login` after its grant, in eight phases. Each phase makes
     * its own calls of the sequence `plan` and, when they all resolve, goes
     * on with the next phase; every phase promises the same of the calls
     * from its first one to the end of the login.
     */

    /** Opens the login page and waits for it: calls 0 and 1 of the login sequence. */
    method OpenLogin(surface: Surface, email: string, password: string, ghost pre: seq<Step>, ghost plan: seq<Step>)
      returns (r: Outcome, ghost m: nat)
      requires Valid() && mailbox.Valid()
      requires plan == LoginActions(email, password, OtpText(Code()))
      requires surface.log == pre
      modifies clock, surface, mailbox
      ensures Valid() && unchanged(this)
      ensures 0 < m <= |plan| && surface.log == pre + plan[..m]
      ensures r.Pass? <==> m == |plan|
      ensures Settled(surface.failAt, |pre|, plan[..m], OutcomeError(r), Code())
      ensures mailbox.fetched == old(mailbox.fetched) + LoginFetches(m, mailbox.search)
      ensures 11 < m ==> Code().Ok?
      ensures 2 < m ==> old(clock.now) + 4000 <= clock.now
    {
      LoginCalls(email, password, OtpText(Code()));
      assert surface.log == pre + plan[..0];
      var ok := Await(surface, Goto(LoginPage), pre, plan, 0);
      if !ok {
        return Fail(StepFailed(Goto(LoginPage))), 1;
      }
      ok := PauseFor(surface, 4000, pre, plan, 1);
      if !ok {
        return Fail(StepFailed(Pause(4000))), 2;
      }
      r, m := EnterEmail(surface, email, password, pre, plan);
    }

    /** Enters the email and moves on: calls 2 and 3 of the login sequence. */
    method EnterEmail(surface: Surface, email: string, password: string, ghost pre: seq<Step>, ghost plan: seq<Step>)
      returns (r: Outcome, ghost m: nat)
      requires mailbox.Valid()
      requires |plan| == 15 && plan[2] == Fill(EmailField, email) && plan[3] == Click(NextButton)
      requires plan[4] == WaitFor(VerifyButton) && plan[5] == Click(VerifyButton)
      requires plan[6] == WaitFor(PasswordField) && plan[7] == Fill(PasswordField, password) && plan[8] == Click(SubmitButton)
      requires plan[9] == WaitFor(CodeField) && plan[10] == FetchOtp
      requires plan[11] == Fill(CodeField, OtpText(Code())) && plan[12] == Click(SubmitButton)
      requires plan[13] == WaitNavigation && plan[14] == LoggedIn
      requires surface.log == pre + plan[..2] && Resolved(surface.failAt, |pre|, plan[..2])
      modifies surface, mailbox
      ensures 2 < m <= |plan| && surface.log == pre + plan[..m]
      ensures r.Pass? <==> m == |plan|
      ensures Settled(surface.failAt, |pre|, plan[..m], OutcomeError(r), Code())
      ensures mailbox.fetched == old(mailbox.fetched) + LoginFetches(m, mailbox.search)
      ensures 11 < m ==> Code().Ok?
    {
      var ok := Await(surface, Fill(EmailField, email), pre, plan, 2);
      if !ok {
        return Fail(StepFailed(Fill(EmailField, email))), 3;
      }
      ok := Await(surface, Click(NextButton), pre, plan, 3);
      if !ok {
        return Fail(StepFailed(Click(NextButton))), 4;
      }
      r, m := VerifyIdentity(surface, password, pre, plan);
    }

    /** Waits for the verify button and clicks it: calls 4 and 5 of the login sequence. */
    method VerifyIdentity(surface: Surface, password: string, ghost pre: seq<Step>, ghost plan: seq<Step>)
      returns (r: Outcome, ghost m: nat)
      requires mailbox.Valid()
      requires |plan| == 15 && plan[4] == WaitFor(VerifyButton) && plan[5] == Click(VerifyButton)
      requires plan[6] == WaitFor(PasswordField) && plan[7] == Fill(PasswordField, password) && plan[8] == Click(SubmitButton)
      requires plan[9] == WaitFor(CodeField) && plan[10] == FetchOtp
      requires plan[11] == Fill(CodeField, OtpText(Code())) && plan[12] == Click(SubmitButton)
      requires plan[13] == WaitNavigation && plan[14] == LoggedIn
      requires surface.log == pre + plan[..4] && Resolved(surface.failAt, |pre|, plan[..4])
      modifies surface, mailbox
      ensures 4 < m <= |plan| && surface.log == pre + plan[..m]
      ensures r.Pass? <==> m == |plan|
      ensures Settled(surface.failAt, |pre|, plan[..m], OutcomeError(r), Code())
      ensures mailbox.fetched == old(mailbox.fetched) + LoginFetches(m, mailbox.search)
      ensures 11 < m ==> Code().Ok?
    {
      var ok := Await(surface, WaitFor(VerifyButton), pre, plan, 4);
      if !ok {
        return Fail(StepFailed(WaitFor(VerifyButton))), 5;
      }
      ok := Await(surface, Click(VerifyButton), pre, plan, 5);
      if !ok {
        return Fail(StepFailed(Click(VerifyButton))), 6;
      }
      r, m := EnterPasswordField(surface, password, pre, plan);
    }

    /** Waits for the password field and fills it: calls 6 and 7 of the login sequence. */
    method EnterPasswordField(surface: Surface, password: string, ghost pre: seq<Step>, ghost plan: seq<Step>)
      returns (r: Outcome, ghost m: nat)
      requires mailbox.Valid()
      requires |plan| == 15
      requires plan[6] == WaitFor(PasswordField) && plan[7] == Fill(PasswordField, password) && plan[8] == Click(SubmitButton)
      requires plan[9] == WaitFor(CodeField) && plan[10] == FetchOtp
      requires plan[11] == Fill(CodeField, OtpText(Code())) && plan[12] == Click(SubmitButton)
      requires plan[13] == WaitNavigation && plan[14] == LoggedIn
      requires surface.log == pre + plan[..6] && Resolved(surface.failAt, |pre|, plan[..6])
      modifies surface, mailbox
      ensures 6 < m <= |plan| && surface.log == pre + plan[..m]
      ensures r.Pass? <==> m == |plan|
      ensures Settled(surface.failAt, |pre|, plan[..m], OutcomeError(r), Code())
      ensures mailbox.fetched == old(mailbox.fetched) + LoginFetches(m, mailbox.search)
      ensures 11 < m ==> Code().Ok?
    {
      var ok := Await(surface, WaitFor(PasswordField), pre, plan, 6);
      if !ok {
        return Fail(StepFailed(WaitFor(PasswordField))), 7;
      }
      ok := Await(surface, Fill(PasswordField, password), pre, plan, 7);
      if !ok {
        return Fail(StepFailed(Fill(PasswordField, password))), 8;
      }
      r, m := SubmitPassword(surface, pre, plan);
    }

    /** Submits the password and waits for the code field: calls 8 and 9 of the login sequence. */
    method SubmitPassword(surface: Surface, ghost pre: seq<Step>, ghost plan: seq<Step>) returns (r: Outcome, ghost m: nat)
      requires mailbox.Valid()
      requires |plan| == 15 && plan[8] == Click(SubmitButton)
      requires plan[9] == WaitFor(CodeField) && plan[10] == FetchOtp
      requires plan[11] == Fill(CodeField, OtpText(Code())) && plan[12] == Click(SubmitButton)
      requires plan[13] == WaitNavigation && plan[14] == LoggedIn
      requires surface.log == pre + plan[..8] && Resolved(surface.failAt, |pre|, plan[..8])
      modifies surface, mailbox
      ensures 8 < m <= |plan| && surface.log == pre + plan[..m]
      ensures r.Pass? <==> m == |plan|
      ensures Settled(surface.failAt, |pre|, plan[..m], OutcomeError(r), Code())
      ensures mailbox.fetched == old(mailbox.fetched) + LoginFetches(m, mailbox.search)
      ensures 11 < m ==> Code().Ok?
    {
      var ok := Await(surface, Click(SubmitButton), pre, plan, 8);
      if !ok {
        return Fail(StepFailed(Click(SubmitButton))), 9;
      }
      ok := Await(surface, WaitFor(CodeField), pre, plan, 9);
      if !ok {
        return Fail(StepFailed(WaitFor(CodeField))), 10;
      }
      r, m := AskCode(surface, pre, plan);
    }

    /** Asks the mailbox for the code: call 10 of the login sequence. */
    method AskCode(surface: Surface, ghost pre: seq<Step>, ghost plan: seq<Step>) returns (r: Outcome, ghost m: nat)
      requires mailbox.Valid()
      requires |plan| == 15 && plan[10] == FetchOtp
      requires plan[11] == Fill(CodeField, OtpText(Code())) && plan[12] == Click(SubmitButton)
      requires plan[13] == WaitNavigation && plan[14] == LoggedIn
      requires surface.log == pre + plan[..10] && Resolved(surface.failAt, |pre|, plan[..10])
      modifies surface, mailbox
      ensures 10 < m <= |plan| && surface.log == pre + plan[..m]
      ensures r.Pass? <==> m == |plan|
      ensures Settled(surface.failAt, |pre|, plan[..m], OutcomeError(r), Code())
      ensures mailbox.fetched == old(mailbox.fetched) + LoginFetches(m, mailbox.search)
      ensures 11 < m ==> Code().Ok?
    {
      Record(surface, FetchOtp, pre, plan, 10);
      var code := mailbox.GetVerificationCode();
      if code.Err? {
        StopAt(surface.failAt, |pre|, plan, 10, OtpFailed(code.error), Code());
        return Fail(OtpFailed(code.error)), 11;
      }
      ResolvedStep(surface.failAt, |pre|, plan, 10);
      r, m := SubmitCode(surface, code.value, pre, plan);
    }

    /** Enters and submits the code: calls 11 and 12 of the login sequence. */
    method SubmitCode(surface: Surface, otp: string, ghost pre: seq<Step>, ghost plan: seq<Step>) returns (r: Outcome, ghost m: nat)
      requires |plan| == 15 && plan[11] == Fill(CodeField, otp) && plan[12] == Click(SubmitButton)
      requires plan[13] == WaitNavigation && plan[14] == LoggedIn
      requires surface.log == pre + plan[..11] && Resolved(surface.failAt, |pre|, plan[..11])
      modifies surface
      ensures 11 < m <= |plan| && surface.log == pre + plan[..m]
      ensures r.Pass? <==> m == |plan|
      ensures Settled(surface.failAt, |pre|, plan[..m], OutcomeError(r), Code())
    {
      var ok := Await(surface, Fill(CodeField, otp), pre, plan, 11);
      if !ok {
        return Fail(StepFailed(Fill(CodeField, otp))), 12;
      }
      ok := Await(surface, Click(SubmitButton), pre, plan, 12);
      if !ok {
        return Fail(StepFailed(Click(SubmitButton))), 13;
      }
      r, m := AwaitLogin(surface, pre, plan);
    }

    /** Waits for the navigation, then logs success: calls 13 and 14 of the login sequence. */
    method AwaitLogin(surface: Surface, ghost pre: seq<Step>, ghost plan: seq<Step>) returns (r: Outcome, ghost m: nat)
      requires |plan| == 15 && plan[13] == WaitNavigation && plan[14] == LoggedIn
      requires surface.log == pre + plan[..13] && Resolved(surface.failAt, |pre|, plan[..13])
      modifies surface
      ensures 13 < m <= |plan| && surface.log == pre + plan[..m]
      ensures r.Pass? <==> m == |plan|
      ensures Settled(surface.failAt, |pre|, plan[..m], OutcomeError(r), Code())
    {
      var ok := Await(surface, WaitNavigation, pre, plan, 13);
      if !ok {
        return Fail(StepFailed(WaitNavigation)), 14;
      }
      Record(surface, LoggedIn, pre, plan, 14);
      ResolvedStep(surface.failAt, |pre|, plan, 14);
      Completed(surface.failAt, |pre|, plan, Code());
      r, m := Pass, 15;
    }

    /**
     * Opens the employees page, waits for the table and queries its rows:
     * the first `m` calls of `ExtractActions`, the first rejection ending them.
     */
    method OpenTable(surface: Surface, ghost pre: seq<Step>) returns (ok: bool, rows: seq<Row>, ghost m: nat)
      requires surface.log == pre
      modifies surface
      ensures 0 < m <= |ExtractActions| && surface.log == pre + ExtractActions[..m]
      ensures ok <==> m == |ExtractActions| && |pre| + 2 !in surface.failAt
      ensures ok ==> rows == surface.rows
      ensures Settled(surface.failAt, |pre|, ExtractActions[..m], if ok then None else Some(StepFailed(ExtractActions[m - 1])), Code())
    {
      assert surface.log == pre + ExtractActions[..0];
      rows := [];
      ok := Await(surface, Goto(EmployeesPage), pre, ExtractActions, 0);
      if !ok {
        return ok, rows, 1;
      }
      ok := Await(surface, WaitFor(TableContainer), pre, ExtractActions, 1);
      if !ok {
        return ok, rows, 2;
      }
      ok, rows := surface.QueryRows(TableRow);
      m := 3;
      assert ExtractActions[..3] == ExtractActions[..2] + [QueryAll(TableRow)];
      if ok {
        ResolvedStep(surface.failAt, |pre|, ExtractActions, 2);
        Completed(surface.failAt, |pre|, ExtractActions, Code());
      } else {
        StopAt(surface.failAt, |pre|, ExtractActions, 2, StepFailed(QueryAll(TableRow)), Code());
      }
    }

    /**
     * `extractEmployeeData`: one rate-limit grant, the employees page, the
     * table, then every row in order, keeping the record of each row that
     * can be read and skipping the others.
     */
    method ExtractEmployeeData(surface: Surface) returns (r: Result<seq<Employee>, ScrapeError>, ghost m: nat)
      requires Valid()
      modifies this, clock, surface
      ensures Valid()
      ensures old(lastRequestTime) + RateLimit <= lastRequestTime
      ensures 0 < m <= |ExtractActions|
      ensures surface.log == old(surface.log) + [Throttle(lastRequestTime)] + ExtractActions[..m]
      ensures r.Ok? <==> m == |ExtractActions| && |old(surface.log)| + 3 !in surface.failAt
      ensures r.Ok? ==> r.value == ExtractRows(surface.rows)
      ensures r.Err? ==> r.error == StepFailed(ExtractActions[m - 1])
      ensures Settled(surface.failAt, |old(surface.log)| + 1, ExtractActions[..m], ResultError(r), Code())
    {
      var _, _ := EnforceRateLimit(surface);
      var ok, rows;
      ok, rows, m := OpenTable(surface, surface.log);
      if !ok {
        return Err(StepFailed(surface.log[|surface.log| - 1])), m;
      }

      var employees: seq<Employee> := [];
      var i := 0;
      while i < |rows|
        invariant 0 <= i <= |rows|
        invariant employees == ExtractRows(rows[..i])
      {
        assert rows[..i + 1][..i] == rows[..i];
        var record := RowRecord(rows[i]);
        if record.Some? {
          employees := employees + [record.value];
        }
        i := i + 1;
      }
      assert rows[..i] == rows;
      r := Ok(employees);
    }

    /**
     * Logs in, then reads the table: the first two calls of the `try` in
     * `scrapeEmployees`. `g` is the login's rate-limit grant.
     */
    method Collect(surface: Surface, email: string, password: string)
      returns (r: Result<seq<Employee>, ScrapeError>, ghost seg: seq<Step>, ghost g: int, ghost m1: nat, ghost m2: nat)
      requires Valid() && mailbox.Valid()
      modifies this, clock, surface, mailbox
      ensures Valid()
      ensures surface.log == old(surface.log) + seg
      ensures Underway(seg, r, old(lastRequestTime), lastRequestTime, Code())
      ensures r.Ok? ==>
        && r.value == ExtractRows(surface.rows)
        && seg == [Throttle(g)] + LoginActions(email, password, OtpText(Code())) + [Throttle(lastRequestTime)] + ExtractActions
      // whatever the outcome, the calls made: the login up to where it stopped, then the table read up to where it stopped
      ensures m1 <= |LoginActions(email, password, OtpText(Code()))| && m2 <= |ExtractActions|
      ensures seg == CollectCalls(g, LoginActions(email, password, OtpText(Code())), lastRequestTime, m1, m2)
      // the mailbox is read once, for the latest message, exactly when the login asked for the code
      ensures mailbox.fetched == old(mailbox.fetched) + LoginFetches(m1, mailbox.search)
      ensures Settled(surface.failAt, |old(surface.log)|, seg, ResultError(r), Code())
      ensures r.Ok? ==> Code().Ok?
    {
      ghost var last0 := lastRequestTime;
      ghost var plan := LoginActions(email, password, OtpText(Code()));
      LoginNavigatesFirst(email, password, OtpText(Code()));
      var loggedIn;
      loggedIn, m1 := Login(surface, email, password);
      g := lastRequestTime;
      if loggedIn.Fail? {
        r := Err(loggedIn.error);
        m2 := 0;
        seg := [Throttle(g)] + plan[..m1];
        LoginStopped(last0, g, plan, m1, loggedIn.error, Code());
        AppendSteps(old(surface.log), [Throttle(g)], plan[..m1]);
        SettledAfterGrant(surface.failAt, |old(surface.log)|, g, plan[..m1], Some(loggedIn.error), Code());
      } else {
        r, seg, m2 := ReadEmployees(surface, old(surface.log), last0, g, plan, m1);
      }
    }

    /**
     * The table read of the `try` in `scrapeEmployees`, once the login made
     * all its calls `plan` after its grant `g`: the calls of the login and
     * the read together are `seg`, made after `pre`.
     */
    method ReadEmployees(surface: Surface, ghost pre: seq<Step>, ghost last: int, ghost g: int, ghost plan: seq<Step>, ghost m1: nat)
      returns (r: Result<seq<Employee>, ScrapeError>, ghost seg: seq<Step>, ghost m2: nat)
      requires Valid()
      requires m1 == |plan| && surface.log == pre + [Throttle(g)] + plan[..m1]
      requires last + RateLimit <= g && g == lastRequestTime && NavigatesFirst(plan)
      requires Settled(surface.failAt, |pre| + 1, plan[..m1], None, Code())
      modifies this, clock, surface
      ensures Valid()
      ensures surface.log == pre + seg
      ensures Underway(seg, r, last, lastRequestTime, Code())
      ensures r.Ok? ==>
        && r.value == ExtractRows(surface.rows)
        && seg == [Throttle(g)] + plan + [Throttle(lastRequestTime)] + ExtractActions
      ensures m2 <= |ExtractActions|
      ensures seg == CollectCalls(g, plan, lastRequestTime, m1, m2)
      ensures Settled(surface.failAt, |pre|, seg, ResultError(r), Code())
    {
      r, m2 := ExtractEmployeeData(surface);
      seg := [Throttle(g)] + plan + [Throttle(lastRequestTime)] + ExtractActions[..m2];
      LoginThenRead(surface.failAt, pre, old(surface.log), surface.log, last, g, plan, m1, lastRequestTime, m2, r, Code());
    }

    /**
     * The body of the `try` in `scrapeEmployees`: log in, read the table,
     * write the JSON file and then the CSV file, the first failure ending it.
     */
    method Session(surface: Surface, email: string, password: string)
      returns (r: Result<seq<Employee>, ScrapeError>, ghost seg: seq<Step>, ghost g: int)
      requires Valid() && mailbox.Valid()
      modifies this, clock, surface, mailbox
      ensures Valid()
      ensures surface.log == old(surface.log) + seg
      ensures Underway(seg, r, old(lastRequestTime), lastRequestTime, Code())
      ensures r.Ok? ==>
        && r.value == ExtractRows(surface.rows)
        && seg == [Throttle(g)] + LoginActions(email, password, OtpText(Code())) + [Throttle(lastRequestTime)] + ExtractActions
                  + [WriteJson(JsonFile)] + CsvWrites(r.value)
      // whatever the outcome, the calls made are the first ones of that sequence
      ensures seg <= TryCalls(Throttle(g), email, password, OtpText(Code()), lastRequestTime, ExtractRows(surface.rows))
      ensures Settled(surface.failAt, |old(surface.log)|, seg, ResultError(r), Code())
      ensures r.Ok? ==> Code().Ok?
      // the mailbox is read once, for the latest message, exactly when the code was asked for
      ensures mailbox.fetched == old(mailbox.fetched) + (if FetchOtp in seg then Emailhlp.LatestFetch(mailbox.search) else [])
    {
      var collected;
      ghost var read, m1, m2;
      collected, read, g, m1, m2 := Collect(surface, email, password);
      r, seg := collected, read;
      if collected.Err? {
        ReadCut(seg, g, email, password, OtpText(Code()), lastRequestTime, ExtractRows(surface.rows), m1, m2);
      } else {
        r, seg := SaveAll(surface, collected, old(surface.log), read, old(lastRequestTime), lastRequestTime,
          [Throttle(g)] + LoginActions(email, password, OtpText(Code())) + [Throttle(lastRequestTime)] + ExtractActions);
      }
      SessionAsks(seg, read, g, email, password, OtpText(Code()), lastRequestTime, ExtractRows(surface.rows), m1, m2);
    }

    /**
     * The writes of a session whose table read succeeded after `pre` with
     * the calls `read`: the files are written, a rejected write replaces the
     * records read by its failure, and `seg` is the calls of the whole session.
     */
    method SaveAll(surface: Surface, collected: Result<seq<Employee>, ScrapeError>, ghost pre: seq<Step>, ghost read: seq<Step>,
                   ghost last: int, ghost latest: int, ghost head: seq<Step>)
      returns (r: Result<seq<Employee>, ScrapeError>, ghost seg: seq<Step>)
      requires collected.Ok? && read == head && surface.log == pre + read
      requires Underway(read, collected, last, latest, Code())
      requires Settled(surface.failAt, |pre|, read, None, Code())
      modifies surface
      ensures surface.log == pre + seg
      ensures Underway(seg, r, last, latest, Code())
      ensures Settled(surface.failAt, |pre|, seg, ResultError(r), Code())
      ensures r.Ok? ==> r == collected && seg == head + [WriteJson(JsonFile)] + CsvWrites(r.value)
      ensures seg <= head + [WriteJson(JsonFile)] + CsvWrites(collected.value)
      ensures |read| < |seg|
    {
      var saved;
      ghost var writes;
      saved, writes := Export(surface, collected.value);
      r := if saved.Fail? then Err(saved.error) else collected;
      SavedAfterRead(surface.failAt, pre, read, writes, collected, saved, r, last, latest, Code(), head);
      seg := read + writes;
      WritesCut(head, writes, collected.value);
    }

    /** `saveToJson` then `saveToCsv` of the records read: the calls made are `writes`, a rejection ending them. */
    method Export(surface: Surface, employees: seq<Employee>) returns (r: Outcome, ghost writes: seq<Step>)
      modifies surface
      ensures surface.log == old(surface.log) + writes
      ensures writes != [] && forall k :: 0 <= k < |writes| ==> writes[k].WriteJson? || writes[k].WriteCsv?
      ensures r.Fail? ==> r.error == StepFailed(writes[|writes| - 1])
      ensures r.Pass? ==> writes == [WriteJson(JsonFile)] + CsvWrites(employees)
      // the JSON file is written first, and the CSV file only when there are records
      ensures writes <= [WriteJson(JsonFile)] + CsvWrites(employees)
      ensures Settled(surface.failAt, |old(surface.log)|, writes, OutcomeError(r), Code())
    {
      writes := [WriteJson(JsonFile)];
      var ok := Emailhlp.SaveToJson(surface, employees, JsonFile);
      if !ok {
        return Fail(StepFailed(WriteJson(JsonFile))), writes;
      }
      ok := Emailhlp.SaveToCsv(surface, employees, CsvFile);
      writes := writes + CsvWrites(employees);
      r := if ok then Pass else Fail(StepFailed(WriteCsv(CsvFile, EmployeeKeys)));
    }

    /** The browser start-up calls, the first rejection ending them. */
    method StartBrowser(surface: Surface) returns (ok: bool, ghost m: nat)
      modifies surface
      ensures 0 < m <= |LaunchSteps| && surface.log == old(surface.log) + LaunchSteps[..m]
      ensures ok <==> Launched(surface.failAt, |old(surface.log)|)
      ensures ok ==> m == |LaunchSteps| && surface.log == old(surface.log) + LaunchSteps
      ensures !ok ==> |surface.log| - 1 in surface.failAt
      ensures Settled(surface.failAt, |old(surface.log)|, LaunchSteps[..m], if ok then None else Some(StepFailed(LaunchSteps[m - 1])), Code())
    {
      ok := surface.Perform(Launch);
      if !ok { return ok, 1; }
      ok := surface.Perform(NewContext);
      if !ok { return ok, 2; }
      ok := surface.Perform(NewPage);
      m := 3;
    }

    /**
     * `scrapeEmployees`: starts the browser, checks the credentials, then
     * inside try/finally logs in, reads the table and writes the files, and
     * finally closes the browser. `run` is the calls it makes.
     */
    method ScrapeEmployees(surface: Surface) returns (r: Result<seq<Employee>, ScrapeError>, ghost run: seq<Step>)
      requires Valid() && mailbox.Valid()
      modifies this, clock, surface, mailbox
      ensures Valid()
      ensures surface.log == old(surface.log) + run
      // a failed browser start-up ends the run with that failure, before anything else
      ensures !Launched(surface.failAt, |old(surface.log)|) ==>
        && 0 < |run| <= 3 && run == LaunchSteps[..|run|]
        && |surface.log| - 1 in surface.failAt
        && r == Err(StepFailed(run[|run| - 1]))
        && lastRequestTime == old(lastRequestTime)
        && mailbox.fetched == old(mailbox.fetched)
      // missing credentials: thrown before any login step, and the browser is not closed
      ensures (Launched(surface.failAt, |old(surface.log)|) && (Missing(email) || Missing(password))) ==>
        && run == LaunchSteps
        && r == Err(CredentialsNotConfigured)
        && lastRequestTime == old(lastRequestTime)
        && mailbox.fetched == old(mailbox.fetched)
      // inside the try: the calls made, the close last and only then, and the outcome the close decides
      ensures (Launched(surface.failAt, |old(surface.log)|) && !Missing(email) && !Missing(password)) ==>
        && ClosedCalls(run, old(lastRequestTime), lastRequestTime, email.value, password.value, Code(), ExtractRows(surface.rows))
        && ClosedOutcome(surface.failAt, |old(surface.log)|, run, r, Code())
      // a run that stopped during start-up stopped at the call that rejected, the ones before it having resolved
      ensures !Launched(surface.failAt, |old(surface.log)|) ==>
        Settled(surface.failAt, |old(surface.log)|, run, ResultError(r), Code())
      // a run succeeds exactly when the credentials are there, the mailbox delivers a code and no awaited call rejects
      ensures r.Ok? <==>
        && Launched(surface.failAt, |old(surface.log)|) && !Missing(email) && !Missing(password)
        && Code().Ok? && Resolved(surface.failAt, |old(surface.log)|, run)
      // success: the whole sequence ran, and the result is the table's readable rows
      ensures r.Ok? ==>
        && !Missing(email) && !Missing(password)
        && r.value == ExtractRows(surface.rows)
        && |run| > 24 && run[..3] == LaunchSteps
        && run[3..] == [run[3]] + LoginActions(email.value, password.value, OtpText(Code()))
                       + [run[19]] + ExtractActions + [WriteJson(JsonFile)] + CsvWrites(r.value) + [Close]
      // the mailbox is read once, for the latest message, exactly when the run asked for the code
      ensures mailbox.fetched == old(mailbox.fetched) + (if FetchOtp in run then Emailhlp.LatestFetch(mailbox.search) else [])
    {
      var ok, m := StartBrowser(surface);
      if !ok {
        run := LaunchSteps[..m];
        r := Err(StepFailed(surface.log[|surface.log| - 1]));
        StartAsksNothing(run);
      } else if Missing(email) || Missing(password) {
        run := LaunchSteps;
        r := Err(CredentialsNotConfigured);
        StartAsksNothing(run);
      } else {
        r, run := Guarded(surface, email.value, password.value, old(surface.log));
      }
    }

    /**
     * The `try`/`finally` of `scrapeEmployees`, once the start-up calls have
     * been made after `pre`: the session, then the close, whose failure
     * replaces the session's outcome. `run` is the calls from the start-up on.
     */
    method Guarded(surface: Surface, email: string, password: string, ghost pre: seq<Step>)
      returns (r: Result<seq<Employee>, ScrapeError>, ghost run: seq<Step>)
      requires Valid() && mailbox.Valid()
      requires surface.log == pre + LaunchSteps && Launched(surface.failAt, |pre|)
      modifies this, clock, surface, mailbox
      ensures Valid()
      ensures surface.log == pre + run
      ensures ClosedCalls(run, old(lastRequestTime), lastRequestTime, email, password, Code(), ExtractRows(surface.rows))
      ensures ClosedOutcome(surface.failAt, |pre|, run, r, Code())
      ensures r.Ok? ==>
        && r.value == ExtractRows(surface.rows)
        && |run| > 24 && run[..3] == LaunchSteps
        && run[3..] == [run[3]] + LoginActions(email, password, OtpText(Code()))
                       + [run[19]] + ExtractActions + [WriteJson(JsonFile)] + CsvWrites(r.value) + [Close]
      ensures r.Ok? <==> Code().Ok? && Resolved(surface.failAt, |pre|, run)
      ensures mailbox.fetched == old(mailbox.fetched) + (if FetchOtp in run then Emailhlp.LatestFetch(mailbox.search) else [])
    {
      ghost var seg, g;
      var body;
      // try
      body, seg, g := Session(surface, email, password);
      // finally
      r, run := Finish(surface, body, pre, seg, old(lastRequestTime), lastRequestTime, g, email, password);
      RunAsks(run, seg);
      ClosedCallsHold(run, seg, body, old(lastRequestTime), lastRequestTime, g, email, password, Code(), ExtractRows(surface.rows));
    }

    /** The `finally` of `scrapeEmployees`, after a `try` body that made the calls `seg` and ended with `body`. */
    method Finish(surface: Surface, body: Result<seq<Employee>, ScrapeError>, ghost pre: seq<Step>, ghost seg: seq<Step>,
                  ghost last: int, ghost latest: int, ghost g: int, ghost email: string, ghost password: string)
      returns (r: Result<seq<Employee>, ScrapeError>, ghost run: seq<Step>)
      requires surface.log == pre + LaunchSteps + seg && Launched(surface.failAt, |pre|)
      requires Underway(seg, body, last, latest, Code())
      requires Settled(surface.failAt, |pre| + 3, seg, ResultError(body), Code())
      requires body.Ok? ==>
        && Code().Ok?
        && seg == [Throttle(g)] + LoginActions(email, password, OtpText(Code())) + [Throttle(latest)] + ExtractActions
                  + [WriteJson(JsonFile)] + CsvWrites(body.value)
      modifies surface
      ensures run == LaunchSteps + seg + [Close]
      ensures surface.log == pre + run
      ensures ClosedOutcome(surface.failAt, |pre|, run, r, Code())
      ensures r.Ok? ==>
        && r == body
        && |run| > 24 && run[..3] == LaunchSteps
        && run[3..] == [run[3]] + LoginActions(email, password, OtpText(Code()))
                       + [run[19]] + ExtractActions + [WriteJson(JsonFile)] + CsvWrites(r.value) + [Close]
      ensures r.Ok? <==> Code().Ok? && Resolved(surface.failAt, |pre|, run)
    {
      var closed := surface.Perform(Close);
      r := if closed then body else Err(StepFailed(Close));
      run := LaunchSteps + seg + [Close];
      assert surface.log == pre + run;
      ClosedOutcomeHolds(surface.failAt, |pre|, run, seg, body, r, closed, last, latest, Code());
      if r.Ok? {
        ClosedShape(run, seg, g, latest, email, password, Code(), r.value);
      }
    }
  }
}
