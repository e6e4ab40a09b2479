# BuildingConnected employee scraper, modelled in Dafny

This project models the core of a NestJS service that signs in to
BuildingConnected through a browser, reads a company's employee table, and
writes the result to a JSON and a CSV file. The core has two parts.

- **The mail helper (`EmailhlpService`).**
  - `getVerificationCode` picks the latest unseen message from the sign-in
    sender and pulls the six-digit one-time code out of its text. It tries
    the primary pattern `/Code:\s*(\d{6})\s*(?:\n|$)/i` first, then the
    fallback `/one-time passcode \(OTP\)[:\s]*(\d{6})/i`.
  - `saveToCsv` writes nothing for empty data. Otherwise it writes a file
    whose header is the keys of the first record.
- **The scraper (`ScraperService`).**
  - `enforceRateLimit` keeps rate-limited requests at least 3000 ms apart.
  - `login` is a fixed sequence of page calls with the code fetch in the
    middle.
  - `extractEmployeeData` turns table rows into employee records. It skips
    rows whose name or email cannot be read, and defaults the optional
    fields.
  - `scrapeEmployees` starts the browser, checks the credentials, then runs
    login, extraction and export inside `try`/`finally`, closing the browser
    at the end.

## How the model is built

- **Files.**
  - `results.dfy`: `Option` and `Result`.
  - `js_text.dfy`: the JavaScript character classes `\s` and `\d`, ASCII
    case folding, and `String.prototype.trim`.
  - `employee_dto.dfy`: the employee record and its key order.
  - `filter_map.dfy`: the generic "keep what a partial function yields"
    fold behind the row loop.
  - `automation.dfy`: the outside world the services drive.
  - `emailhlp.dfy` and `scraper.dfy`: the two services.
- **The outside world.** The browser page and the files are one `Surface`
  object.
  - It records every call made on it as a `Step`.
  - It answers each awaited call with success or rejection from a fixed
    oracle `failAt`. Every pattern of failures is one choice of that oracle.
  - Pages and elements are named by the enumerations `Page` and `Selector`.
    `Url` and `Css` give the exact addresses and CSS selectors the source
    uses.
  - The clock (`Date.now`, `setTimeout`, `waitForTimeout`) is a `Clock`
    object. The model relies only on it being monotone and on a sleep
    lasting at least as long as asked. It records every wait asked of it
    (`slept`), so the rate limiter's one wait is stated exactly.
- **The mailbox.** A `Mailbox` object stands for what the IMAP session
  delivers: the outcome of the search, and the outcome of fetching and
  parsing each message id. It records the ids it was asked to fetch.
- **The regular expressions.** Each pattern is an explicit scanner
  (`PrimaryAt`, `FallbackAt`), tried at every position from the left
  (`Leftmost`). Each scanner is proved equal to a declarative statement of
  what the pattern matches (`PrimaryMatch`, `FallbackMatch`), in both
  directions.
  - The `i` flag is ASCII case folding. Without the `u` flag, JavaScript
    never folds a non-ASCII character onto an ASCII one, so this is exact
    for the ASCII labels of the two patterns.
  - Without the `m` flag, `$` is the end of the text.
- **The service state.**
  - `ScraperService` is a class whose `lastRequestTime` field the rate
    limiter updates.
  - The login runs as a chain of eight phase methods over a ghost `plan`,
    the 15 calls of `LoginActions`. Each phase makes at most two awaited
    calls and reports how many calls of the plan were made (`m`).
- **Where a run stops.** Two predicates tie the calls made to the failure
  oracle `failAt` and to the mailbox's code.
  - `Resolved(failAt, base, t)`: every awaited call of `t` resolved. The
    awaited calls are all calls except the rate-limit grant, the code
    request and the success log line.
  - `Settled(failAt, base, done, err, code)`: every call of `done` before the
    last resolved. With no error the last one resolved too. An error is the
    one the last call raised: either the rejection of an awaited call that
    `failAt` rejects, or the mailbox's error when the last call is the code
    request.
  - Every login phase, `Login`, `ExtractEmployeeData`, the `try` body,
    `Export` and `StartBrowser` ensure `Settled` of the calls they made.
- **The calls made.** `TryCalls` is every call of the `try` body when
  nothing fails: a grant, the 15 login calls, a second grant, the three
  table calls, the JSON write and the CSV writes of the records read.
  - `Collect` states exactly where the login and the table read stopped
    (`CollectCalls`), and `CollectCallsBegin` proves that those calls begin
    the full read.
  - `Session` and `SaveAll` state that, whatever the outcome, the calls
    made are a prefix of `TryCalls`; `Export` states the same of its writes.
- **The whole run.** `ScrapeEmployees` states, for a run past the start-up
  and the credential check:
  - the calls between the start-up and the close are a prefix of `TryCalls`
    (`ClosedCalls`);
  - every navigation comes right after a rate-limit grant, and grants are
    spaced at least 3000 ms apart;
  - the close is the last call and happens only once;
  - a failed close replaces the body's outcome, and a clean close keeps it:
    the body's calls then settle against `failAt` as they did
    (`ClosedOutcome`);
  - the mailbox fetches the latest message of its search exactly once when
    the run made the code request, and fetches nothing otherwise;
  - the run succeeds exactly when the browser starts, both credentials are
    set, the mailbox delivers a code and every awaited call, the close
    included, resolves.
- **Splits made for proof size.** The source has one `login` and one
  `scrapeEmployees`. The eight login phase methods, and the `Collect`,
  `ReadEmployees`, `Session`, `SaveAll`, `Guarded` and `Finish` methods, are pieces of those
  two functions, cut so that each proof stays small. They run the same
  calls in the same order.

Two behaviours of the code are stated as they are written:

- **Browser close.** The credential check (scraper.service.ts lines 43-45)
  runs after the browser is launched and outside the `try`. So when a
  credential is missing, the browser is never closed. `ScrapeEmployees`
  states exactly that.
- **Login errors.** The `catch` at lines 58-60 rethrows whatever the failing
  call rejected with, without wrapping it. The model's `StepFailed(step)`
  carries the call that rejected.

## Model

| member | source | states |
|---|---|---|
| JsText.TrimSpec | src/scraper/service/scraper.service.ts:112-113 | `trim()` cuts a run of whitespace from each end and nothing else: the result is a slice of the input with only whitespace before and after it, it has whitespace at neither end, it is never longer, and it is empty exactly when the input was all whitespace |
| JsText.TrimIdempotent | src/scraper/service/scraper.service.ts:116-117 | trimming an already trimmed field changes nothing |
| Emailhlp.ExtractCode | src/scraper/service/emailhlp.service.ts:51-61 | a code extracted from a message text is six ASCII digits; the only failure is "Verification code not found in email" |
| Emailhlp.LeftmostSpec | src/scraper/service/emailhlp.service.ts:51 | `match` without `g` reports the first position where the pattern matches, and nothing only when it matches nowhere |
| Emailhlp.ExtractCodeLeftmost | src/scraper/service/emailhlp.service.ts:51-61 | no code exactly when neither scanner matches at any position; if the primary scanner matches anywhere, the code is the one captured by a primary match at or before that position |
| Emailhlp.PrimaryAtSound | src/scraper/service/emailhlp.service.ts:51 | whenever the primary scanner reports a code, the pattern `Code:\s*(\d{6})\s*(?:\n\|$)` (case-insensitive) matches there and captures those six digits |
| Emailhlp.PrimaryAtComplete | src/scraper/service/emailhlp.service.ts:51 | whenever the primary pattern matches at a position, the scanner reports the digits that match captures |
| Emailhlp.PrimaryCodeDelimited | src/scraper/service/emailhlp.service.ts:51 | the six digits a primary match captures are followed by whitespace or the end of the text, so a seventh digit breaks the match |
| Emailhlp.FallbackAtSound | src/scraper/service/emailhlp.service.ts:56 | whenever the fallback scanner reports a code, `one-time passcode \(OTP\)[:\s]*(\d{6})` (case-insensitive) matches there and captures those digits |
| Emailhlp.FallbackAtComplete | src/scraper/service/emailhlp.service.ts:56 | whenever the fallback pattern matches at a position, the scanner reports the digits it captures |
| Emailhlp.NoPrimaryAtMeansNone | src/scraper/service/emailhlp.service.ts:51-52 | no primary match starts at a position exactly when the scanner finds none there |
| Emailhlp.NoFallbackAtMeansNone | src/scraper/service/emailhlp.service.ts:56-57 | no fallback match starts at a position exactly when the scanner finds none there |
| Emailhlp.PrimaryTakesPrecedence | src/scraper/service/emailhlp.service.ts:51-53 | when the primary pattern matches, the code is the one its leftmost match captures, whatever the fallback would find |
| Emailhlp.FallbackWhenPrimaryFails | src/scraper/service/emailhlp.service.ts:54-58 | when the primary pattern matches nowhere, the code is the one the fallback's leftmost match captures |
| Emailhlp.NotFoundIffNoMatch | src/scraper/service/emailhlp.service.ts:59-61 | the call rejects with "code not found" exactly when neither pattern matches anywhere in the text |
| Emailhlp.LatestMessage | src/scraper/service/emailhlp.service.ts:24-39 | a failed session, inbox or search rejects with its own error and message; an empty result rejects with "No verification email found"; otherwise the last id returned is chosen |
| Emailhlp.VerificationCode | src/scraper/service/emailhlp.service.ts:24-70 | the outcome of `getVerificationCode`: a selection error is passed on unchanged; for the chosen message, a failed fetch or parse rejects with that error and message, and a parsed text settles with `ExtractCode` of that text; a code is six digits |
| Emailhlp.OnlyLatestIsRead | src/scraper/service/emailhlp.service.ts:39-40 | earlier search results and the contents of every other message do not change the outcome |
| Emailhlp.Mailbox.GetVerificationCode | src/scraper/service/emailhlp.service.ts:13-82 | settles with `VerificationCode` of the mailbox; fetches the chosen message and no other, and nothing when the session or search fails or finds nothing; the fetches are exactly `LatestFetch` of the search |
| Emailhlp.LatestFetch | src/scraper/service/emailhlp.service.ts:39-40 | at most one message is fetched: the one `LatestMessage` selects, and none when the search selects nothing |
| Emailhlp.SaveToJson | src/scraper/service/emailhlp.service.ts:84-86 | one write of the JSON file; it fails exactly when that write rejects |
| Emailhlp.CsvHeader | src/scraper/service/emailhlp.service.ts:89-93 | no header (nothing written) exactly for empty data, else the record keys in insertion order |
| Emailhlp.SaveToCsv | src/scraper/service/emailhlp.service.ts:88-97 | empty data returns without writing; otherwise one CSV write headed by the keys of the first record |
| Automation.Clock.Read | src/scraper/service/scraper.service.ts:22 | `Date.now()` never runs backwards, and reading it waits for nothing |
| Automation.Clock.Sleep | src/scraper/service/scraper.service.ts:24 | a `setTimeout` wait lasts at least as long as asked, and is recorded as one wait of that length |
| Scraper.WaitMs | src/scraper/service/scraper.service.ts:21-25 | the wait is `rateLimit - elapsed` when fewer than 3000 ms have elapsed since the last grant, and zero otherwise |
| Scraper.ScraperService.EnforceRateLimit | src/scraper/service/scraper.service.ts:21-27 | makes exactly one wait, of `WaitMs` from the first clock reading (`rateLimit - elapsed`), when fewer than 3000 ms have passed since the last grant, and no wait otherwise; then records the clock reading after the wait as the new grant, at least 3000 ms after the previous one |
| Scraper.SpacedPairwise | src/scraper/service/scraper.service.ts:13-14 | in a run of grants, any two are at least 3000 ms apart per grant between them |
| Scraper.SpacedAppend | src/scraper/service/scraper.service.ts:21-27 | a spaced run of grants followed by one spaced after its latest grant is a spaced run |
| Scraper.LoginThrottled | src/scraper/service/scraper.service.ts:67-68 | the login page is opened right after the rate-limit grant, on every run however far it gets |
| Scraper.LoginIdentityOrder | src/scraper/service/scraper.service.ts:72-77 | the email is entered and NEXT clicked right after; the verify button is clicked right after it appears |
| Scraper.LoginPasswordOrder | src/scraper/service/scraper.service.ts:80-82 | the password is entered only after its field appears, and submitted right after |
| Scraper.LoginCodeOrder | src/scraper/service/scraper.service.ts:85-89 | the mailbox is asked for the code only after the code field appears, and the code is entered right after it arrives |
| Scraper.LoginAsksAt | src/scraper/service/scraper.service.ts:66-86 | the login asks for the code at call 10 and at no earlier call |
| Scraper.LoginSubmitOrder | src/scraper/service/scraper.service.ts:89-94 | the code is submitted right after it is entered; success is logged only after the navigation |
| Scraper.ScraperService.Login | src/scraper/service/scraper.service.ts:66-95 | one grant, then a prefix of `LoginActions` that `Settled` ties to `failAt`: every call before the stop resolved, and the stop is an awaited call that rejected, with its error, or the code request with the mailbox's error; the mailbox is read only once the code field has appeared; past the code request the mailbox delivered a code; the email is entered at least 4000 ms after the grant; the mailbox fetches exactly the latest message of the search once the login reached the code request (call 10), and nothing otherwise |
| Scraper.ScraperService.OpenLogin | src/scraper/service/scraper.service.ts:68-69 | opens the login page and waits 4000 ms on the clock, then hands on to the next phase; the calls made settle against `failAt`, and once the login got past the wait, the clock has moved on at least 4000 ms |
| Scraper.ScraperService.PauseFor | src/scraper/service/scraper.service.ts:69 | `waitForTimeout` is one awaited call; when it resolves, at least the asked time has passed on the clock and the prefix stays resolved, and otherwise the run stops at it; the clock records one wait of the asked length when the call resolves, and none when it rejects |
| Scraper.ScraperService.EnterEmail | src/scraper/service/scraper.service.ts:72-73 | fills the email and clicks NEXT, stopping at the first rejection; the calls made settle against `failAt` |
| Scraper.ScraperService.VerifyIdentity | src/scraper/service/scraper.service.ts:76-77 | waits for the verify button and clicks it, stopping at the first rejection; the calls made settle against `failAt` |
| Scraper.ScraperService.EnterPasswordField | src/scraper/service/scraper.service.ts:80-81 | waits for the password field and fills it, stopping at the first rejection; the calls made settle against `failAt` |
| Scraper.ScraperService.SubmitPassword | src/scraper/service/scraper.service.ts:82-85 | submits the password and waits for the code field, stopping at the first rejection; the calls made settle against `failAt` |
| Scraper.ScraperService.AskCode | src/scraper/service/scraper.service.ts:86 | asks the mailbox for the code: its failure is the error raised, and a code is what the rest of the login types; the calls made settle against `failAt` and the mailbox; the mailbox fetches exactly the latest message of the search, once |
| Scraper.ScraperService.SubmitCode | src/scraper/service/scraper.service.ts:89-90 | enters and submits the code, stopping at the first rejection; the calls made settle against `failAt` |
| Scraper.ScraperService.AwaitLogin | src/scraper/service/scraper.service.ts:93-94 | waits for the navigation and only then logs success; the whole login then resolved |
| Scraper.ScraperService.Await | src/scraper/service/scraper.service.ts:68-93 | an awaited page call either resolves, extending the resolved prefix, or rejects, and then the run stops at it with that rejection |
| Scraper.ResolvedAt | src/scraper/service/scraper.service.ts:66-95 | in a stretch of calls that resolved, each awaited call resolved |
| Scraper.ResolvedJoin | src/scraper/service/scraper.service.ts:46-63 | two resolved stretches, one right after the other, are one resolved stretch |
| Scraper.SettledAfter | src/scraper/service/scraper.service.ts:46-63 | calls that all resolved, followed by a stretch that settled, settle as that stretch did |
| Scraper.StopAt | src/scraper/service/scraper.service.ts:66-95 | a call that fails after a resolved prefix settles the run with its failure |
| Scraper.LoginWaitsResolved | src/scraper/service/scraper.service.ts:80-94 | the password is entered only after the wait for its field resolved, the code is requested only after the wait for the code field resolved, and success is logged only after the navigation resolved |
| Scraper.Required | src/scraper/service/scraper.service.ts:112-113 | a name or email is read exactly when its lookup finds an element, and then it is the trimmed text |
| Scraper.Optional | src/scraper/service/scraper.service.ts:116-117 | phone, title and initials are the trimmed text when the lookup finds an element, and '' when it rejects or finds nothing |
| Scraper.LeadFlag | src/scraper/service/scraper.service.ts:120 | `is_lead` is "No" exactly when the lookup rejects, and "Yes" otherwise, even when it finds no element |
| Scraper.RowRecord | src/scraper/service/scraper.service.ts:112-129 | a row yields a record exactly when its name and email can be read; its lead flag is "Yes" or "No" |
| Scraper.RecordFields | src/scraper/service/scraper.service.ts:112-129 | every text field of a record is trimmed; name and email are the trimmed texts; phone, title and initials are the trimmed texts of their lookups, or ''; the lead flag is "No" exactly when its lookup rejected |
| Scraper.ExtractRows | src/scraper/service/scraper.service.ts:108-134 | the output is never longer than the row list |
| Scraper.ExtractPrefix | src/scraper/service/scraper.service.ts:108-134 | reading more rows only appends: the records of a prefix of the rows are a prefix of the output |
| Scraper.RecordPosition | src/scraper/service/scraper.service.ts:122-129 | a readable row's record sits in the output right after the records of the rows before it |
| Scraper.OrderKept | src/scraper/service/scraper.service.ts:108-134 | of two readable rows, the earlier row's record comes first |
| Scraper.RecordOrigin | src/scraper/service/scraper.service.ts:108-134 | every record in the output is the record of some readable row, at that row's position |
| Scraper.NoneSkipped | src/scraper/service/scraper.service.ts:130-133 | no row is dropped exactly when every row's name and email can be read |
| Scraper.ScraperService.OpenTable | src/scraper/service/scraper.service.ts:99-105 | goes to the employees page, waits for the table, queries the rows, stopping at the first rejection; on success the rows are the table's; the calls made settle against `failAt` |
| Scraper.ScraperService.ExtractEmployeeData | src/scraper/service/scraper.service.ts:97-137 | one grant, then the employees page; on success the result is `ExtractRows` of the table's rows, otherwise the rejection of the last call made; the calls made settle against `failAt` |
| Scraper.ScraperService.Collect | src/scraper/service/scraper.service.ts:48-51 | login then extraction; the calls made are exactly a grant and the login up to where it stopped, then, after a full login, a second grant and the table calls up to where they stopped (`CollectCalls`); they settle against `failAt`; a success returns `ExtractRows` of the table after the full sequence, and means the mailbox delivered a code; the mailbox fetches exactly the latest message once the login reached the code request, and nothing otherwise |
| Scraper.ScraperService.ReadEmployees | src/scraper/service/scraper.service.ts:50-51 | after a full login, the table read: the calls of the login and the read are `CollectCalls` at the read's stop, underway and settled against `failAt`; a success returns `ExtractRows` of the table after the full sequence |
| Scraper.LoginThenRead | src/scraper/service/scraper.service.ts:48-51 | a completed login followed by a table read that stopped after some of its calls: the calls of both are the grant, the login, the second grant and the read's calls, underway, and they settle as the read did |
| Scraper.CollectCallsBegin | src/scraper/service/scraper.service.ts:48-51 | wherever the login or the table read stopped, the calls made so far are the first calls of the full login and read, and all of them when neither stopped early |
| Scraper.ReadCut | src/scraper/service/scraper.service.ts:46-57 | calls that stopped within the login or the table read are a prefix of every call of the `try` body |
| Scraper.WritesCut | src/scraper/service/scraper.service.ts:54-55 | a prefix of the writes, made after the read, keeps the session's calls a prefix of the read and all the writes |
| Scraper.TryAsks | src/scraper/service/scraper.service.ts:46-57 | calls that begin the `try` body include the code request exactly when there are more than 11 of them |
| Scraper.SessionAsks | src/scraper/service/scraper.service.ts:46-57 | the calls of the `try` body include the code request exactly when the login reached it |
| Scraper.RunAsks | src/scraper/service/scraper.service.ts:29-63 | a run includes the code request exactly when its `try` body does: the start-up and the close ask for no code |
| Scraper.ScraperService.Export | src/scraper/service/scraper.service.ts:54-55 | the JSON write, then the CSV write (none for no records), stopping at the first rejection, which is the error raised; the writes made are a prefix of that sequence and settle against `failAt` |
| Scraper.ScraperService.Session | src/scraper/service/scraper.service.ts:46-57 | the body of the `try`: on success the records read, after the full login, table and export calls; whatever the outcome, the calls made are a prefix of `TryCalls`; on failure the error of its last call; the calls made settle against `failAt`; the mailbox fetches exactly the latest message when its calls include the code request, and nothing otherwise |
| Scraper.ScraperService.SaveAll | src/scraper/service/scraper.service.ts:54-57 | after a successful read, the writes: a rejected write replaces the records by its error, and a success returns the records after the full sequence of calls; the calls made are a prefix of the read followed by all the writes; the session's calls settle against `failAt` |
| Scraper.LoginStopped | src/scraper/service/scraper.service.ts:48 | a login that stopped at a call leaves the `try` body with that call's error, its navigation throttled and the browser open |
| Scraper.TableRead | src/scraper/service/scraper.service.ts:48-51 | a completed login followed by a table read keeps navigation throttled and grants spaced, with the read's failure as the error |
| Scraper.UnderwayJoin | src/scraper/service/scraper.service.ts:48-51 | a begun stretch followed by an orderly one that ends at the failure is underway as a whole |
| Scraper.Exported | src/scraper/service/scraper.service.ts:54-55 | the file writes neither navigate nor close the browser, and a failed write is the error raised |
| Scraper.ClosedRun | src/scraper/service/scraper.service.ts:58-63 | after the `finally`, the close is the last call and the only one, and a body error whose close succeeded is rethrown unchanged |
| Scraper.ClosedOrderly | src/scraper/service/scraper.service.ts:29-63 | neither the start-up calls nor the close navigate or grant, so the whole run is as orderly as the `try` body |
| Scraper.TryPrefix | src/scraper/service/scraper.service.ts:46-63 | in a run wrapped by the start-up and the close, the stretch between them is the `try` body and keeps its prefix property, opening with the body's grant |
| Scraper.ClosedCallsHold | src/scraper/service/scraper.service.ts:29-63 | a `try` body that is underway and whose calls are a prefix of `TryCalls`, wrapped by the start-up and the close, makes a run with the close last and only then, orderly, and with its `try` stretch a prefix of `TryCalls` |
| Scraper.ClosedOutcomeHolds | src/scraper/service/scraper.service.ts:58-63 | the `finally` decides the outcome: a rejected close wins; a clean close keeps the body's outcome, its calls settled as they were; and the run succeeds exactly when the mailbox delivered a code and every awaited call resolved |
| Scraper.ScraperService.StartBrowser | src/scraper/service/scraper.service.ts:30-34 | launch, context, page, stopping at the first rejection; success exactly when none rejects; the calls made settle against `failAt` |
| Scraper.ScraperService.Guarded | src/scraper/service/scraper.service.ts:46-63 | the `try`/`finally`: the calls between the start-up and the close are a prefix of `TryCalls`; the close runs last on success and on failure, its failure replaces the outcome, and otherwise the body's outcome settles unchanged; it succeeds exactly when the mailbox delivered a code and every awaited call, the close included, resolved; the mailbox fetches exactly the latest message when the run includes the code request, and nothing otherwise |
| Scraper.ScraperService.Finish | src/scraper/service/scraper.service.ts:61-63 | the close is the last call, after the start-up and the body; its rejection replaces the body's outcome, a clean close keeps it with the body's calls settled as they were; success exactly when the mailbox delivered a code and every awaited call resolved |
| Scraper.ClosedVerdict | src/scraper/service/scraper.service.ts:29-63 | a run past the start-up succeeds exactly when the mailbox delivered a code and every awaited call of it, the close included, resolved |
| Scraper.ScraperService.ScrapeEmployees | src/scraper/service/scraper.service.ts:29-64 | a start-up failure ends the run at the call that rejected; missing credentials throw "credentials not configured" with no login call and no close; otherwise the calls between the start-up and the close are a prefix of `TryCalls`, the browser is closed last and only then, navigation is throttled and grants are spaced, a failed close replaces the outcome and a clean close keeps the body's calls settled against `failAt` as they were; the run succeeds exactly when the browser starts, both credentials are set, the mailbox delivers a code and no awaited call rejects, and a success holds the readable rows after the full sequence of calls; on every run, the mailbox fetches exactly the latest message when the run includes the code request, and nothing otherwise |

## Left out

- The IMAP plumbing is not modelled: the connection, `openBox`, the fetch stream and `simpleParser`. The model starts from what they deliver, which is a search outcome and, per message id, a fetch or parse outcome.
- A fetch that emits neither a message nor an error leaves the source's promise unsettled. The model always settles.
- A parsed message without a text part makes `mail.text.match` throw inside a callback, so the promise never settles. The model takes every parsed message to have a text.
- `results.pop()` also removes the id from the search array. The array is not used afterwards, so the model only reads its last element.
- JavaScript strings are UTF-16 code units; the model's strings are sequences of Unicode scalar values.
- Playwright is not modelled. Each awaited page call is one `Step` that resolves or rejects, and timeouts are rejections.
- The per-row element lookups of the row loop are given as each `Row`'s `Lookup` outcomes rather than logged as calls.
- A `textContent` of null makes `trim` throw. The model represents that as a lookup that rejects.
- Console and logger output is not modelled. That includes the printing of the credentials and the per-row `console.log`. The "Login successful" log line is recorded as the step `LoggedIn`.
- The contents of the JSON and CSV files are left out. Only the writes, their paths and the CSV header are modelled.
- The `headless` and `userAgent` launch options are left out.
- `Date.now` is assumed never to run backwards, and `setTimeout` to wait at least as long as asked.
- The Google Drive service, the refresh-token scripts, the NestJS module, controller and configuration wiring, and the spec file are not part of this model.
- Scraper.ExtractRows: its own contract states only the length bound. The order, position, origin and skipping properties are the lemmas ExtractPrefix, RecordPosition, OrderKept, RecordOrigin and NoneSkipped.
