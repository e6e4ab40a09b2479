/**
 * The outside world the scraper drives, reduced to what the services can
 * observe of it: an automation surface (a browser page plus the files the
 * service writes) that records every call made on it and answers each
 * awaited call with success or a rejection, the rows of the employee table
 * as the surface's element queries would report them, and a millisecond
 * clock that never runs backwards.
 */
module Automation {

  /** The BuildingConnected pages the scraper opens. */
  datatype Page = LoginPage | EmployeesPage

  /** The page elements the scraper addresses, each by a fixed CSS selector (see `Css`). */
  datatype Selector =
    | EmailField | NextButton | VerifyButton | PasswordField | SubmitButton | CodeField
    | TableContainer | TableRow

  const BaseUrl: string := "https://app.buildingconnected.com"

  /** The address of each page. */
  function Url(p: Page): string {
    match p
    case LoginPage => BaseUrl + "/login?retUrl=%2F"
    case EmployeesPage => "https://app.buildingconnected.com/companies/68525131d62066154bfd00ed/employees"
  }

  /** The CSS selector of each element. */
  function Css(s: Selector): string {
    match s
    case EmailField => "#emailField"
    case NextButton => "button[aria-label=\"NEXT\"]"
    case VerifyButton => "#verify_user_btn"
    case PasswordField => "#password"
    case SubmitButton => "#btnSubmit"
    case CodeField => "#VerificationCode"
    case TableContainer => ".ReactVirtualized__Grid__innerScrollContainer"
    case TableRow => ".ReactVirtualized__Table__row"
  }

  /** One interaction with the outside world, in the order it was made. */
  datatype Step =
    | Launch                                  // chromium.launch
    | NewContext                              // browser.newContext
    | NewPage                                 // context.newPage
    | Throttle(at: int)                       // the rate limiter granted a request at clock reading `at`
    | Goto(page: Page)                        // page.goto(Url(page))
    | Pause(ms: int)                          // page.waitForTimeout
    | Fill(selector: Selector, value: string) // page.fill(Css(selector), value)
    | Click(selector: Selector)               // page.click
    | WaitFor(selector: Selector)             // page.waitForSelector
    | FetchOtp                                // the one-time code was requested from the mailbox
    | WaitNavigation                          // page.waitForNavigation
    | LoggedIn                                // the "Login successful" log line
    | QueryAll(selector: Selector)            // page.$$
    | WriteJson(path: string)                 // the JSON file was written
    | WriteCsv(path: string, header: seq<string>)  // the CSV file was written with this header
    | Close                                   // browser.close

  /**
   * What an element lookup inside one table row yields: the query rejected,
   * it resolved to no element, or it resolved to an element with this
   * (untrimmed) text content.
   */
  datatype Lookup = Rejected | NoElement | Element(text: string)

  /** One row of the employee table, as the lookups the scraper makes in it resolve. */
  datatype Row = Row(
    name: Lookup,
    email: Lookup,
    phone: Lookup,
    title: Lookup,
    avatar: Lookup,
    leadToggle: Lookup)

  /**
   * The automation surface. `log` is every call made on it, in order;
   * `failAt` says which of them reject: the awaited call that becomes entry
   * `k` of the log rejects exactly when `k` is in `failAt`. Any pattern of
   * failures the real browser and file system can produce is one choice of
   * `failAt`.
   */
  class Surface {
    var log: seq<Step>
    const failAt: set<nat>
    const rows: seq<Row>

    constructor (failAt: set<nat>, rows: seq<Row>)
      ensures log == [] && this.failAt == failAt && this.rows == rows
    {
      log := [];
      this.failAt := failAt;
      this.rows := rows;
    }

    /** Makes an awaited call that may reject. */
    method Perform(s: Step) returns (ok: bool)
      modifies this
      ensures log == old(log) + [s]
      ensures ok <==> |old(log)| !in failAt
    {
      ok := |log| !in failAt;
      log := log + [s];
    }

    /** Records an interaction that cannot fail on the surface. */
    method Note(s: Step)
      modifies this
      ensures log == old(log) + [s]
    {
      log := log + [s];
    }

    /** `page.$$(selector)`: all rows of the table, unless the query rejects. */
    method QueryRows(selector: Selector) returns (ok: bool, found: seq<Row>)
      modifies this
      ensures log == old(log) + [QueryAll(selector)]
      ensures ok <==> |old(log)| !in failAt
      ensures found == if ok then rows else []
    {
      ok := Perform(QueryAll(selector));
      found := if ok then rows else [];
    }
  }

  /**
   * A millisecond clock (`Date.now`) that never runs backwards. Reading it
   * may find that time has passed (`drift`), and a timer may fire late
   * (`lateness`); callers rely only on the clock being monotone and on a
   * sleep lasting at least as long as asked.
   */
  class Clock {
    var now: int
    /** Every wait asked of the clock (`setTimeout`, `waitForTimeout`), in order. */
    ghost var slept: seq<int>
    const drift: nat
    const lateness: nat

    constructor (start: int, drift: nat, lateness: nat)
      ensures now == start && this.drift == drift && this.lateness == lateness && slept == []
    {
      now := start;
      slept := [];
      this.drift := drift;
      this.lateness := lateness;
    }

    /** `Date.now()`. */
    method Read() returns (t: int)
      modifies this
      ensures old(now) <= now && t == now && slept == old(slept)
    {
      now := now + drift;
      t := now;
    }

    /** Awaiting `setTimeout(resolve, ms)`. */
    method Sleep(ms: int)
      modifies this
      ensures old(now) <= now && old(now) + ms <= now
      ensures slept == old(slept) + [ms]
    {
      slept := slept + [ms];
      if ms > 0 {
        now := now + ms + lateness;
      }
    }
  }
}
