/**
 * The mail helper service: retrieving the one-time verification code that
 * the sign-in service mails, and the guard in front of the CSV export.
 *
 * The IMAP session (connect, open INBOX, search for unseen mail from the
 * sign-in sender, fetch, parse) is reduced to what it delivers: the outcome
 * of the search and, for each message id, the outcome of fetching and
 * parsing that message. What remains is the selection of the latest message
 * and the extraction of the code from its text by two regular expressions,
 * a primary one and a fallback, written here as explicit scanners and proved
 * equal to the patterns' matching semantics.
 */
module Emailhlp {
  import opened Results
  import opened JsText
  import opened Automation
  import opened EmployeeDto

  type MessageId = nat

  /** Why no code was retrieved. Each kind carries the cause it was raised with. */
  datatype CodeError =
    | ConnectionError(cause: string)  // the IMAP connection reported an error
    | InboxError(cause: string)       // opening INBOX failed
    | SearchError(cause: string)      // the search reported an error
    | NoVerificationEmail             // the search found no message
    | FetchError(cause: string)       // fetching the chosen message failed
    | ParseError(cause: string)       // the chosen message could not be parsed
    | CodeNotFound                    // neither pattern matched the message text

  /** What the IMAP session delivered up to and including the search. */
  datatype SearchOutcome =
    | ConnectFailed(cause: string)
    | OpenFailed(cause: string)
    | SearchFailed(cause: string)
    | Found(ids: seq<MessageId>)

  /** What fetching and parsing one message delivered. */
  datatype FetchOutcome =
    | FetchFailed(cause: string)
    | ParseFailed(cause: string)
    | Parsed(text: string)

  /** The message each error is rejected with. */
  function Message(e: CodeError): string {
    match e
    case NoVerificationEmail => "No verification email found"
    case CodeNotFound => "Verification code not found in email"
    case ConnectionError(c) => c
    case InboxError(c) => c
    case SearchError(c) => c
    case FetchError(c) => c
    case ParseError(c) => c
  }

  // ---------------------------------------------------------------------
  // The two patterns, as scanners over the message text
  // ---------------------------------------------------------------------

  /** The literal part of the primary pattern, case-folded. */
  const CodeLabel: string := "code:"

  /** The literal part of the fallback pattern, case-folded. */
  const OtpLabel: string := "one-time passcode (otp)"

  /** The characters of `[:\s]`. */
  predicate IsColonOrSpace(c: char) {
    c == ':' || IsSpace(c)
  }

  /** Under the `i` flag, `lit` (already folded) occurs in `s` at `p`. */
  predicate LabelAt(s: string, p: nat, lit: string) {
    p + |lit| <= |s| && forall k :: 0 <= k < |lit| ==> Fold(s[p + k]) == lit[k]
  }

  /** `\d{6}` matches in `s` at `a`. */
  predicate SixDigitsAt(s: string, a: nat) {
    a + 6 <= |s| && forall k :: a <= k < a + 6 ==> IsDigit(s[k])
  }

  /** A one-time code: exactly six ASCII digits. */
  predicate SixDigits(c: string) {
    |c| == 6 && forall k :: 0 <= k < 6 ==> IsDigit(c[k])
  }

  /**
   * The greedy star of a character class from `i`: the end of the longest
   * run of class characters starting there.
   */
  function Skip(s: string, i: nat, inClass: char -> bool): (j: nat)
    requires i <= |s|
    ensures i <= j <= |s|
    decreases |s| - i
  {
    if i < |s| && inClass(s[i]) then Skip(s, i + 1, inClass) else i
  }

  /** What Skip passes over is all class characters, and it stops at a non-class character or the end. */
  lemma {:induction false} SkipSpec(s: string, i: nat, inClass: char -> bool)
    requires i <= |s|
    ensures forall k :: i <= k < Skip(s, i, inClass) ==> inClass(s[k])
    ensures Skip(s, i, inClass) == |s| || !inClass(s[Skip(s, i, inClass)])
    decreases |s| - i
  {
    if i < |s| && inClass(s[i]) {
      SkipSpec(s, i + 1, inClass);
    }
  }

  /** A run of class characters followed by a non-class character or the end is the only run Skip can report. */
  lemma {:induction false} SkipFindsMaximalRun(s: string, i: nat, j: nat, inClass: char -> bool)
    requires i <= j <= |s|
    requires forall k :: i <= k < j ==> inClass(s[k])
    requires j == |s| || !inClass(s[j])
    ensures Skip(s, i, inClass) == j
    decreases j - i
  {
    if i < j {
      SkipFindsMaximalRun(s, i + 1, j, inClass);
    }
  }

  /**
   * `\s*(?:\n|$)` matches from `i` (without the `m` flag, `$` is the end of
   * the text only): the whitespace from `i` on reaches a newline or the end.
   */
  predicate EndsLine(s: string, i: nat)
    requires i <= |s|
    decreases |s| - i
  {
    i == |s| || s[i] == '\n' || (IsSpace(s[i]) && EndsLine(s, i + 1))
  }

  /** The primary pattern `Code:\s*(\d{6})\s*(?:\n|$)` tried at `p`: the captured code, if it matches there. */
  function PrimaryAt(s: string, p: nat): (r: Option<string>)
    ensures r.Some? ==> SixDigits(r.value)
  {
    if !LabelAt(s, p, CodeLabel) then None
    else
      var a := Skip(s, p + |CodeLabel|, IsSpace);
      if SixDigitsAt(s, a) && EndsLine(s, a + 6) then Some(s[a..a + 6]) else None
  }

  /** The fallback pattern `one-time passcode \(OTP\)[:\s]*(\d{6})` tried at `p`. */
  function FallbackAt(s: string, p: nat): (r: Option<string>)
    ensures r.Some? ==> SixDigits(r.value)
  {
    if !LabelAt(s, p, OtpLabel) then None
    else
      var a := Skip(s, p + |OtpLabel|, IsColonOrSpace);
      if SixDigitsAt(s, a) then Some(s[a..a + 6]) else None
  }

  /**
   * The first position from `from` on at which `at` matches: how
   * `String.prototype.match` without the `g` flag picks the leftmost match.
   */
  function Leftmost(s: string, from: nat, at: (string, nat) -> Option<string>): (r: Option<nat>)
    ensures r.Some? ==> from <= r.value <= |s| && at(s, r.value).Some?
    decreases |s| + 1 - from
  {
    if from > |s| then None
    else if at(s, from).Some? then Some(from)
    else Leftmost(s, from + 1, at)
  }

  /** Leftmost reports a position only when nothing matches before it, and nothing when nothing matches at all. */
  lemma {:induction false} LeftmostSpec(s: string, from: nat, at: (string, nat) -> Option<string>)
    ensures Leftmost(s, from, at).Some? ==> forall q :: from <= q < Leftmost(s, from, at).value ==> at(s, q).None?
    ensures Leftmost(s, from, at).None? ==> forall q :: from <= q <= |s| ==> at(s, q).None?
    decreases |s| + 1 - from
  {
    if from <= |s| && at(s, from).None? {
      LeftmostSpec(s, from + 1, at);
    }
  }

  /**
   * The code in a message text: the primary pattern's leftmost match, else
   * the fallback's leftmost match, else "Verification code not found".
   */
  function ExtractCode(text: string): (r: Result<string, CodeError>)
    ensures r.Ok? ==> SixDigits(r.value)
    ensures r.Err? ==> r.error == CodeNotFound && Message(r.error) == "Verification code not found in email"
  {
    match Leftmost(text, 0, PrimaryAt)
    case Some(p) => Ok(PrimaryAt(text, p).value)
    case None =>
      match Leftmost(text, 0, FallbackAt)
      case Some(p) => Ok(FallbackAt(text, p).value)
      case None => Err(CodeNotFound)
  }

  /**
   * The code is missing exactly when neither scanner matches anywhere, and a
   * primary match anywhere means the code is the one the leftmost primary
   * match (at or before it) captures.
   */
  lemma ExtractCodeLeftmost(text: string)
    ensures ExtractCode(text).Err? <==> forall q :: 0 <= q <= |text| ==> PrimaryAt(text, q).None? && FallbackAt(text, q).None?
    ensures forall q :: 0 <= q <= |text| && PrimaryAt(text, q).Some? ==>
              ExtractCode(text).Ok? && exists q' :: 0 <= q' <= q && PrimaryAt(text, q') == Some(ExtractCode(text).value)
  {
    LeftmostSpec(text, 0, PrimaryAt);
    LeftmostSpec(text, 0, FallbackAt);
  }

  // ---------------------------------------------------------------------
  // The scanners agree with the patterns' matching semantics
  // ---------------------------------------------------------------------

  /**
   * The primary pattern matches at `p` with its first `\s*` ending at `a`
   * (where the six digits start) and its second ending at `b` (where a
   * newline or the end of the text follows).
   */
  ghost predicate PrimaryMatch(s: string, p: nat, a: nat, b: nat) {
    && LabelAt(s, p, CodeLabel)
    && p + |CodeLabel| <= a && a + 6 <= b <= |s|
    && (forall k :: p + |CodeLabel| <= k < a ==> IsSpace(s[k]))
    && SixDigitsAt(s, a)
    && (forall k :: a + 6 <= k < b ==> IsSpace(s[k]))
    && (b == |s| || s[b] == '\n')
  }

  /** The fallback pattern matches at `p` with `[:\s]*` ending at `a`, where the six digits start. */
  ghost predicate FallbackMatch(s: string, p: nat, a: nat) {
    && LabelAt(s, p, OtpLabel)
    && p + |OtpLabel| <= a
    && SixDigitsAt(s, a)
    && (forall k :: p + |OtpLabel| <= k < a ==> IsColonOrSpace(s[k]))
  }

  /** `\s*` from `i` ends at `b`, where a newline or the end of the text follows. */
  ghost predicate LineEndAt(s: string, i: nat, b: nat) {
    i <= b <= |s| && (forall k :: i <= k < b ==> IsSpace(s[k])) && (b == |s| || s[b] == '\n')
  }

  lemma {:induction false} EndsLineSound(s: string, i: nat)
    requires i <= |s| && EndsLine(s, i)
    ensures exists b :: LineEndAt(s, i, b)
    decreases |s| - i
  {
    if i == |s| || s[i] == '\n' {
      assert LineEndAt(s, i, i);
    } else {
      EndsLineSound(s, i + 1);
      var b :| LineEndAt(s, i + 1, b);
      assert LineEndAt(s, i, b);
    }
  }

  lemma {:induction false} EndsLineComplete(s: string, i: nat, b: nat)
    requires LineEndAt(s, i, b)
    ensures EndsLine(s, i)
    decreases b - i
  {
    if i < b {
      EndsLineComplete(s, i + 1, b);
    }
  }

  /** Whenever the primary scanner reports a code, the pattern matches there and captures that code. */
  lemma PrimaryAtSound(s: string, p: nat)
    requires PrimaryAt(s, p).Some?
    ensures exists a: nat, b: nat :: PrimaryMatch(s, p, a, b) && PrimaryAt(s, p).value == s[a..a + 6]
  {
    var a := Skip(s, p + |CodeLabel|, IsSpace);
    SkipSpec(s, p + |CodeLabel|, IsSpace);
    EndsLineSound(s, a + 6);
    var b :| LineEndAt(s, a + 6, b);
    assert PrimaryMatch(s, p, a, b);
  }

  /** Whenever the primary pattern matches at `p`, the scanner reports the code it captures. */
  lemma PrimaryAtComplete(s: string, p: nat, a: nat, b: nat)
    requires PrimaryMatch(s, p, a, b)
    ensures PrimaryAt(s, p) == Some(s[a..a + 6])
  {
    SkipFindsMaximalRun(s, p + |CodeLabel|, a, IsSpace);
    assert LineEndAt(s, a + 6, b);
    EndsLineComplete(s, a + 6, b);
  }

  /**
   * A primary code stands alone: the six digits it captures are followed by
   * whitespace or the end of the text, so a seventh digit breaks the match.
   */
  lemma PrimaryCodeDelimited(s: string, p: nat)
    requires PrimaryAt(s, p).Some?
    ensures exists a: nat :: SixDigitsAt(s, a) && PrimaryAt(s, p).value == s[a..a + 6] && (a + 6 == |s| || IsSpace(s[a + 6]))
  {
    PrimaryAtSound(s, p);
    var a: nat, b: nat :| PrimaryMatch(s, p, a, b) && PrimaryAt(s, p).value == s[a..a + 6];
    if a + 6 < |s| {
      assert IsSpace(s[a + 6]);
    }
  }

  /** Whenever the fallback scanner reports a code, the pattern matches there and captures that code. */
  lemma FallbackAtSound(s: string, p: nat)
    requires FallbackAt(s, p).Some?
    ensures exists a: nat :: FallbackMatch(s, p, a) && FallbackAt(s, p).value == s[a..a + 6]
  {
    var a := Skip(s, p + |OtpLabel|, IsColonOrSpace);
    SkipSpec(s, p + |OtpLabel|, IsColonOrSpace);
    assert FallbackMatch(s, p, a);
  }

  /** Whenever the fallback pattern matches at `p`, the scanner reports the code it captures. */
  lemma FallbackAtComplete(s: string, p: nat, a: nat)
    requires FallbackMatch(s, p, a)
    ensures FallbackAt(s, p) == Some(s[a..a + 6])
  {
    SkipFindsMaximalRun(s, p + |OtpLabel|, a, IsColonOrSpace);
  }

  /** No primary match starts at `p`, whichever way its two `\s*` are split. */
  ghost predicate NoPrimaryAt(s: string, p: nat) {
    forall a: nat, b: nat :: !PrimaryMatch(s, p, a, b)
  }

  /** No fallback match starts at `p`. */
  ghost predicate NoFallbackAt(s: string, p: nat) {
    forall a: nat :: !FallbackMatch(s, p, a)
  }

  lemma NoPrimaryAtMeansNone(s: string, p: nat)
    ensures NoPrimaryAt(s, p) <==> PrimaryAt(s, p).None?
  {
    if PrimaryAt(s, p).Some? {
      PrimaryAtSound(s, p);
    }
    if !NoPrimaryAt(s, p) {
      var a, b :| PrimaryMatch(s, p, a, b);
      PrimaryAtComplete(s, p, a, b);
    }
  }

  lemma NoFallbackAtMeansNone(s: string, p: nat)
    ensures NoFallbackAt(s, p) <==> FallbackAt(s, p).None?
  {
    if FallbackAt(s, p).Some? {
      FallbackAtSound(s, p);
    }
    if !NoFallbackAt(s, p) {
      var a :| FallbackMatch(s, p, a);
      FallbackAtComplete(s, p, a);
    }
  }

  /** A position where `at` matches, with no match before it, is the leftmost match. */
  lemma LeftmostIs(s: string, p: nat, at: (string, nat) -> Option<string>)
    requires p <= |s| && at(s, p).Some?
    requires forall q :: 0 <= q < p ==> at(s, q).None?
    ensures Leftmost(s, 0, at) == Some(p)
  {
    LeftmostSpec(s, 0, at);
  }

  /** The first primary match is where the primary scanner's leftmost match is, with the same code. */
  lemma FirstPrimary(s: string, p: nat, a: nat, b: nat)
    requires PrimaryMatch(s, p, a, b)
    requires forall q :: 0 <= q < p ==> NoPrimaryAt(s, q)
    ensures Leftmost(s, 0, PrimaryAt) == Some(p) && PrimaryAt(s, p) == Some(s[a..a + 6])
  {
    PrimaryAtComplete(s, p, a, b);
    forall q | 0 <= q < p ensures PrimaryAt(s, q).None? {
      NoPrimaryAtMeansNone(s, q);
    }
    LeftmostIs(s, p, PrimaryAt);
  }

  /** The first fallback match is where the fallback scanner's leftmost match is, with the same code. */
  lemma FirstFallback(s: string, p: nat, a: nat)
    requires FallbackMatch(s, p, a)
    requires forall q :: 0 <= q < p ==> NoFallbackAt(s, q)
    ensures Leftmost(s, 0, FallbackAt) == Some(p) && FallbackAt(s, p) == Some(s[a..a + 6])
  {
    FallbackAtComplete(s, p, a);
    forall q | 0 <= q < p ensures FallbackAt(s, q).None? {
      NoFallbackAtMeansNone(s, q);
    }
    LeftmostIs(s, p, FallbackAt);
  }

  /** When the primary pattern matches nowhere, its scanner finds nothing. */
  lemma NoPrimaryAnywhere(s: string)
    requires forall q :: 0 <= q <= |s| ==> NoPrimaryAt(s, q)
    ensures Leftmost(s, 0, PrimaryAt).None?
  {
    forall q | 0 <= q <= |s| ensures PrimaryAt(s, q).None? {
      NoPrimaryAtMeansNone(s, q);
    }
    LeftmostSpec(s, 0, PrimaryAt);
  }

  /**
   * Precedence: when the primary pattern matches, its leftmost match decides
   * the code, whatever the fallback pattern would have found.
   */
  lemma PrimaryTakesPrecedence(s: string, p: nat, a: nat, b: nat)
    requires PrimaryMatch(s, p, a, b)
    requires forall q :: 0 <= q < p ==> NoPrimaryAt(s, q)
    ensures ExtractCode(s) == Ok(s[a..a + 6])
  {
    FirstPrimary(s, p, a, b);
  }

  /**
   * The fallback pattern is consulted only when the primary matches nowhere;
   * then its leftmost match decides the code.
   */
  lemma FallbackWhenPrimaryFails(s: string, p: nat, a: nat)
    requires forall q :: 0 <= q <= |s| ==> NoPrimaryAt(s, q)
    requires FallbackMatch(s, p, a)
    requires forall q :: 0 <= q < p ==> NoFallbackAt(s, q)
    ensures ExtractCode(s) == Ok(s[a..a + 6])
  {
    NoPrimaryAnywhere(s);
    FirstFallback(s, p, a);
  }

  /** The text yields no code exactly when neither pattern matches anywhere in it. */
  lemma NotFoundIffNoMatch(s: string)
    ensures ExtractCode(s) == Err(CodeNotFound) <==>
            forall q :: 0 <= q <= |s| ==> NoPrimaryAt(s, q) && NoFallbackAt(s, q)
  {
    ExtractCodeLeftmost(s);
    forall q | 0 <= q <= |s| ensures NoPrimaryAt(s, q) <==> PrimaryAt(s, q).None? {
      NoPrimaryAtMeansNone(s, q);
    }
    forall q | 0 <= q <= |s| ensures NoFallbackAt(s, q) <==> FallbackAt(s, q).None? {
      NoFallbackAtMeansNone(s, q);
    }
  }

  // ---------------------------------------------------------------------
  // getVerificationCode
  // ---------------------------------------------------------------------

  /**
   * The message the code is read from: the last id the search returned. A
   * failed session or search, and an empty result, select nothing.
   */
  function LatestMessage(search: SearchOutcome): (r: Result<MessageId, CodeError>)
    ensures r.Ok? <==> search.Found? && search.ids != []
    ensures r.Ok? ==> r.value == search.ids[|search.ids| - 1]
    ensures search == Found([]) ==> r == Err(NoVerificationEmail) && Message(r.error) == "No verification email found"
    // a failed session rejects with the error it reported, as it is
    ensures search.ConnectFailed? ==> r == Err(ConnectionError(search.cause)) && Message(r.error) == search.cause
    ensures search.OpenFailed? ==> r == Err(InboxError(search.cause)) && Message(r.error) == search.cause
    ensures search.SearchFailed? ==> r == Err(SearchError(search.cause)) && Message(r.error) == search.cause
  {
    match search
    case ConnectFailed(c) => Err(ConnectionError(c))
    case OpenFailed(c) => Err(InboxError(c))
    case SearchFailed(c) => Err(SearchError(c))
    case Found(ids) =>
      if |ids| == 0 then Err(NoVerificationEmail) else Ok(ids[|ids| - 1])
  }

  /**
   * The messages `getVerificationCode` fetches: the latest one when the
   * search selects one, and none otherwise.
   */
  function LatestFetch(search: SearchOutcome): (f: seq<MessageId>)
    ensures |f| <= 1
    ensures f != [] <==> LatestMessage(search).Ok?
    ensures f != [] ==> f[0] == LatestMessage(search).value
  {
    match LatestMessage(search)
    case Ok(id) => [id]
    case Err(_) => []
  }

  /** What `getVerificationCode` settles with, given what the mailbox delivers. */
  function VerificationCode(search: SearchOutcome, messages: MessageId -> FetchOutcome): (r: Result<string, CodeError>)
    ensures r.Ok? ==> SixDigits(r.value)
    ensures LatestMessage(search).Err? ==> r == Err(LatestMessage(search).error)
    ensures r.Ok? ==> messages(LatestMessage(search).value).Parsed?
    // the latest message decides: a failed fetch or parse rejects with its error, a parsed text yields its code
    ensures LatestMessage(search).Ok? ==> match messages(LatestMessage(search).value)
      case FetchFailed(c) => r == Err(FetchError(c)) && Message(r.error) == c
      case ParseFailed(c) => r == Err(ParseError(c)) && Message(r.error) == c
      case Parsed(text) => r == ExtractCode(text)
  {
    match LatestMessage(search)
    case Err(e) => Err(e)
    case Ok(id) =>
      match messages(id)
      case FetchFailed(c) => Err(FetchError(c))
      case ParseFailed(c) => Err(ParseError(c))
      case Parsed(text) => ExtractCode(text)
  }

  /**
   * Only the latest message counts: the earlier results of the search, and
   * the contents of every other message, do not change the outcome.
   */
  lemma {:induction false} OnlyLatestIsRead(
    earlier: seq<MessageId>, otherEarlier: seq<MessageId>, latest: MessageId,
    messages: MessageId -> FetchOutcome, otherMessages: MessageId -> FetchOutcome)
    requires messages(latest) == otherMessages(latest)
    ensures VerificationCode(Found(earlier + [latest]), messages) ==
            VerificationCode(Found(otherEarlier + [latest]), otherMessages)
  {
    assert LatestMessage(Found(earlier + [latest])) == Ok(latest);
    assert LatestMessage(Found(otherEarlier + [latest])) == Ok(latest);
  }

  /**
   * The mailbox as the service sees it: the outcome of the session up to the
   * search, and the outcome of fetching each message. `fetched` records every
   * message the service asked for.
   */
  class Mailbox {
    const search: SearchOutcome
    const messages: MessageId -> FetchOutcome
    /** What `getVerificationCode` settles with on this mailbox. */
    ghost const code: Result<string, CodeError>
    var fetched: seq<MessageId>

    ghost predicate Valid() {
      code == VerificationCode(search, messages)
    }

    constructor (search: SearchOutcome, messages: MessageId -> FetchOutcome)
      ensures Valid()
      ensures this.search == search && this.messages == messages && fetched == []
    {
      this.search := search;
      this.messages := messages;
      code := VerificationCode(search, messages);
      fetched := [];
    }

    method Fetch(id: MessageId) returns (o: FetchOutcome)
      modifies this
      ensures fetched == old(fetched) + [id] && o == messages(id)
    {
      fetched := fetched + [id];
      o := messages(id);
    }

    /**
     * `getVerificationCode`: settles with the code of the latest matching
     * message, fetching that message and no other, and fetching nothing when
     * the session or the search fails or finds nothing.
     */
    method GetVerificationCode() returns (r: Result<string, CodeError>)
      requires Valid()
      modifies this
      ensures r == code && r == VerificationCode(search, messages)
      ensures fetched == old(fetched) + LatestFetch(search)
    {
      match search
      case ConnectFailed(c) => r := Err(ConnectionError(c));
      case OpenFailed(c) => r := Err(InboxError(c));
      case SearchFailed(c) => r := Err(SearchError(c));
      case Found(results) =>
        if |results| == 0 {
          r := Err(NoVerificationEmail);
          return;
        }
        var latestUid := results[|results| - 1];
        var mail := Fetch(latestUid);
        match mail
        case FetchFailed(c) => r := Err(FetchError(c));
        case ParseFailed(c) => r := Err(ParseError(c));
        case Parsed(text) => r := ExtractCode(text);
    }
  }

  // ---------------------------------------------------------------------
  // saveToJson and saveToCsv
  // ---------------------------------------------------------------------

  /** `saveToJson`: one write of the JSON file, whatever the data. */
  method SaveToJson(surface: Surface, data: seq<Employee>, filename: string) returns (ok: bool)
    modifies surface
    ensures surface.log == old(surface.log) + [WriteJson(filename)]
    ensures ok <==> |old(surface.log)| !in surface.failAt
  {
    ok := surface.Perform(WriteJson(filename));
  }

  /**
   * The header `saveToCsv` writes: none for empty data (nothing is written),
   * else the keys of the first record.
   */
  function CsvHeader(data: seq<Employee>): (h: Option<seq<string>>)
    ensures h.None? <==> data == []
    ensures h.Some? ==> h.value == EmployeeKeys
  {
    if |data| == 0 then None else Some(EmployeeKeys)
  }

  /** `saveToCsv`: writes nothing for empty data, else one CSV file whose header is the record keys. */
  method SaveToCsv(surface: Surface, data: seq<Employee>, filename: string) returns (ok: bool)
    modifies surface
    ensures data == [] ==> ok && surface.log == old(surface.log)
    ensures data != [] ==> surface.log == old(surface.log) + [WriteCsv(filename, EmployeeKeys)]
    ensures data != [] ==> (ok <==> |old(surface.log)| !in surface.failAt)
  {
    var header := CsvHeader(data);
    if header.None? {
      return true;
    }
    ok := surface.Perform(WriteCsv(filename, header.value));
  }
}
