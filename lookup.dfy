/**
 The direct lookup the chat falls back to: the first cached candidate whose
 digit-normalised phone equals the digit-normalised query, formatted as a
 fixed Markdown block, or a not-found reply that echoes the query and gives
 the HR contact.

 A candidate whose sheet had no phone column has no phone at all. The code
 as written normalises that missing phone and throws (`FindAsWritten`); the
 lookup the rest of the model uses treats such a candidate as not matching
 (`FindMatch`).
 */
module Lookup {
  import opened Types
  import opened JsText
  import opened Phone

  /** The candidate's phone is present and has the same digits as the query. */
  predicate PhoneMatches(c: Candidate, normalized: string) {
    c.phone.Some? && NormalizePhone(c.phone.value) == normalized
  }

  function FindFrom(roster: seq<Candidate>, normalized: string, i: nat): (r: Option<nat>)
    requires i <= |roster|
    ensures r.Some? ==> i <= r.value < |roster| && PhoneMatches(roster[r.value], normalized)
    ensures r.Some? ==> forall j :: i <= j < r.value ==> !PhoneMatches(roster[j], normalized)
    ensures r.None? <==> forall j :: i <= j < |roster| ==> !PhoneMatches(roster[j], normalized)
    decreases |roster| - i
  {
    if i == |roster| then None
    else if PhoneMatches(roster[i], normalized) then Some(i)
    else FindFrom(roster, normalized, i + 1)
  }

  /** `cachedCandidates.find(...)`, as the index of the first candidate whose phone matches the query. */
  function FindMatch(roster: seq<Candidate>, phoneNumber: string): Option<nat> {
    FindFrom(roster, NormalizePhone(phoneNumber), 0)
  }

  /** The first match wins: with duplicate phones the earlier row is the one found. */
  lemma FirstMatchWins(roster: seq<Candidate>, phoneNumber: string, i: nat)
    requires i < |roster| && PhoneMatches(roster[i], NormalizePhone(phoneNumber))
    ensures FindMatch(roster, phoneNumber).Some?
    ensures FindMatch(roster, phoneNumber).value <= i
    ensures forall j :: 0 <= j < FindMatch(roster, phoneNumber).value ==> !PhoneMatches(roster[j], NormalizePhone(phoneNumber))
  {
  }

  /** The outcome of code that may throw. */
  datatype Outcome<T> = Returned(value: T) | Threw

  /** The search as written: reaching a candidate without a phone throws a TypeError. */
  function FindFromAsWritten(roster: seq<Candidate>, normalized: string, i: nat): (r: Outcome<Option<nat>>)
    requires i <= |roster|
    ensures r.Threw? <==> exists j :: i <= j < |roster| && roster[j].phone.None? &&
                                    forall m :: i <= m < j ==> !PhoneMatches(roster[m], normalized)
    ensures r.Returned? ==> r.value == FindFrom(roster, normalized, i)
    decreases |roster| - i
  {
    if i == |roster| then Returned(None)
    else if roster[i].phone.None? then Threw
    else if NormalizePhone(roster[i].phone.value) == normalized then Returned(Some(i))
    else FindFromAsWritten(roster, normalized, i + 1)
  }

  function FindAsWritten(roster: seq<Candidate>, phoneNumber: string): Outcome<Option<nat>> {
    FindFromAsWritten(roster, NormalizePhone(phoneNumber), 0)
  }

  const FoundHeading := "### Candidate Information (Direct Match)\n"
  const DirectLookupNote := "\n*Note: This information was retrieved via direct secure lookup.*"
  const NotFoundOpening := "I couldn't find any application matching the phone number "
  const NotFoundMiddle := ". \n\nIf you believe this is an error, please contact our HR team:\n"

  const HrName := "Vigneshwaran"
  const HrPhone := "9344117877"
  const HrEmail := "Careers@evolv clothing"

  function Bold(text: string): string {
    "**" + text + "**"
  }

  /** A Markdown list item with a bold label, ending the line. */
  function Line(key: string, value: string): string {
    "- **" + key + ":** " + value + "\n"
  }

  /** The phone and e-mail lines both HR contact blocks end with. */
  function HrContactTail(): string {
    Line("Phone", HrPhone) + "- **Email:** " + HrEmail
  }

  /** A template literal prints a missing field as `undefined`. */
  function Show(field: Option<string>): string {
    if field.Some? then field.value else "undefined"
  }

  /** `field || fallback`: a missing or empty field shows the fallback. */
  function OrElse(field: Option<string>, fallback: string): string {
    if field.Some? && field.value != "" then field.value else fallback
  }

  function FoundReply(c: Candidate): string {
    FoundHeading
      + Line("Name", Show(c.name))
      + Line("Position", OrElse(c.position, "N/A"))
      + Line("Status", Show(c.status))
      + Line("Interview Date", OrElse(c.interviewDate, "To be scheduled"))
      + DirectLookupNote
  }

  function NotFoundReply(phoneNumber: string): string {
    NotFoundOpening + Bold(phoneNumber) + NotFoundMiddle + Line("HR", HrName) + HrContactTail()
  }

  /** `performDirectLookup` over the cached roster. */
  function DirectLookup(roster: seq<Candidate>, phoneNumber: string): string {
    match FindMatch(roster, phoneNumber)
    case Some(k) => FoundReply(roster[k])
    case None => NotFoundReply(phoneNumber)
  }

  /** `performDirectLookup` as written: it throws when the search reaches a candidate without a phone. */
  function DirectLookupAsWritten(roster: seq<Candidate>, phoneNumber: string): Outcome<string> {
    match FindAsWritten(roster, phoneNumber)
    case Threw => Threw
    case Returned(Some(k)) => Returned(FoundReply(roster[k]))
    case Returned(None) => Returned(NotFoundReply(phoneNumber))
  }

  /**
   A found reply shows the candidate's name and status, the position or
   `N/A` when it is missing or empty, and the interview date or `To be
   scheduled` when it is missing or empty.
   */
  lemma FoundReplyShowsCandidate(roster: seq<Candidate>, phoneNumber: string)
    requires FindMatch(roster, phoneNumber).Some?
    ensures var c := roster[FindMatch(roster, phoneNumber).value];
      var reply := DirectLookup(roster, phoneNumber);
      && StartsWith(reply, FoundHeading)
      && Contains(reply, Line("Name", Show(c.name)))
      && Contains(reply, Line("Status", Show(c.status)))
      && ((c.position.None? || c.position.value == "") ==> Contains(reply, Line("Position", "N/A")))
      && ((c.position.Some? && c.position.value != "") ==> Contains(reply, Line("Position", c.position.value)))
      && ((c.interviewDate.None? || c.interviewDate.value == "") ==> Contains(reply, Line("Interview Date", "To be scheduled")))
      && ((c.interviewDate.Some? && c.interviewDate.value != "") ==> Contains(reply, Line("Interview Date", c.interviewDate.value)))
  {
    var c := roster[FindMatch(roster, phoneNumber).value];
    FoundPartsContained(FoundHeading, Line("Name", Show(c.name)), Line("Position", OrElse(c.position, "N/A")),
      Line("Status", Show(c.status)), Line("Interview Date", OrElse(c.interviewDate, "To be scheduled")), DirectLookupNote);
  }

  lemma FoundPartsContained(h: string, a: string, b: string, c: string, d: string, e: string)
    ensures var s := h + a + b + c + d + e;
      StartsWith(s, h) && Contains(s, a) && Contains(s, b) && Contains(s, c) && Contains(s, d)
  {
    assert StartsWith(h, h);
    ContainsSuffix(h, a);
    AppendKeepsOccurrences(h, a);
    AppendKeepsOccurrences(h + a, b);
    ContainsSuffix(h + a, b);
    AppendKeepsOccurrences(h + a + b, c);
    ContainsSuffix(h + a + b, c);
    AppendKeepsOccurrences(h + a + b + c, d);
    ContainsSuffix(h + a + b + c, d);
    AppendKeepsOccurrences(h + a + b + c + d, e);
  }

  /** With no match the reply echoes the query as typed and gives the HR contact. */
  lemma NotFoundReplyEchoesQuery(roster: seq<Candidate>, phoneNumber: string)
    requires FindMatch(roster, phoneNumber).None?
    ensures var reply := DirectLookup(roster, phoneNumber);
      && StartsWith(reply, NotFoundOpening)
      && Contains(reply, Bold(phoneNumber))
      && Contains(reply, Line("HR", HrName) + HrContactTail())
  {
    NotFoundPartsContained(NotFoundOpening, Bold(phoneNumber), NotFoundMiddle, Line("HR", HrName), HrContactTail());
  }

  lemma NotFoundPartsContained(h: string, q: string, m: string, a: string, b: string)
    ensures var s := h + q + m + a + b;
      StartsWith(s, h) && Contains(s, q) && Contains(s, a + b)
  {
    var s := h + q + m + a + b;
    assert s == h + (q + m + a + b);
    assert s[..|h|] == h;
    assert s == h + q + (m + a + b);
    ContainsInfix(h, q, m + a + b);
    assert s == h + q + m + (a + b) + [];
    ContainsInfix(h + q + m, a + b, []);
  }

  /** An empty cache never matches: the reply is the not-found reply. */
  lemma EmptyRosterNotFound(phoneNumber: string)
    ensures DirectLookup([], phoneNumber) == NotFoundReply(phoneNumber)
    ensures Contains(DirectLookup([], phoneNumber), Line("HR", HrName) + HrContactTail())
  {
    NotFoundReplyEchoesQuery([], phoneNumber);
  }

  /**
   Dashes in the query are ignored: a one-row roster holding the phone
   `a + b + c` (for example `9999999999`) is found by the query `a-b-c`
   (`999-999-9999`), and the reply names the candidate and the status.
   */
  lemma FormattedQueryFindsCandidate(name: string, status: string, a: string, b: string, c: string)
    requires AllDigits(a) && AllDigits(b) && AllDigits(c)
    ensures var roster := [Candidate(Some(name), Some(a + b + c), Some(status), None, None, map[])];
      var reply := DirectLookup(roster, a + "-" + b + "-" + c);
      Contains(reply, name) && Contains(reply, status)
  {
    var roster := [Candidate(Some(name), Some(a + b + c), Some(status), None, None, map[])];
    var query := a + "-" + b + "-" + c;
    DashedDigits(a, b, c);
    assert PhoneMatches(roster[0], NormalizePhone(query));
    FoundReplyShowsCandidate(roster, query);
    var reply := DirectLookup(roster, query);
    ContainedInContained(reply, Line("Name", name), "- **" + "Name" + ":** ", name, "\n");
    ContainedInContained(reply, Line("Status", status), "- **" + "Status" + ":** ", status, "\n");
  }

  lemma DashedDigits(a: string, b: string, c: string)
    requires AllDigits(a) && AllDigits(b) && AllDigits(c)
    ensures NormalizePhone(a + "-" + b + "-" + c) == a + b + c
    ensures NormalizePhone(a + b + c) == a + b + c
  {
    var dash := "-";
    NormalizeNoDigits(dash);
    NormalizeDigitsUnchanged(a);
    NormalizeDigitsUnchanged(b);
    NormalizeDigitsUnchanged(c);
    NormalizePhoneAppend(a, dash);
    assert NormalizePhone(a + dash) == a;
    NormalizePhoneAppend(a + dash, b);
    assert NormalizePhone(a + dash + b) == a + b;
    NormalizePhoneAppend(a + dash + b, dash);
    assert NormalizePhone(a + dash + b + dash) == a + b;
    NormalizePhoneAppend(a + dash + b + dash, c);
    NormalizePhoneAppend(a, b);
    NormalizePhoneAppend(a + b, c);
  }

  lemma {:induction false} ContainedInContained(s: string, t: string, a: string, u: string, b: string)
    requires Contains(s, t) && t == a + u + b
    ensures Contains(s, u)
    decreases |s|
  {
    if StartsWith(s, t) {
      assert s == t + s[|t|..];
      assert s == a + u + (b + s[|t|..]);
      ContainsInfix(a, u, b + s[|t|..]);
    } else {
      ContainedInContained(s[1..], t, a, u, b);
      ContainsTail(s, u);
    }
  }

  lemma ContainsTail(s: string, u: string)
    requires |s| > 0 && Contains(s[1..], u)
    ensures Contains(s, u)
  {
  }

  /** As written and corrected agree whenever every candidate has a phone. */
  lemma AsWrittenAgreesWithPhones(roster: seq<Candidate>, phoneNumber: string)
    requires forall j :: 0 <= j < |roster| ==> roster[j].phone.Some?
    ensures DirectLookupAsWritten(roster, phoneNumber) == Returned(DirectLookup(roster, phoneNumber))
  {
  }

  /**
   As written, a cache built from a sheet without a phone column makes the
   lookup throw for every query instead of answering "not found".
   */
  lemma MissingPhoneThrows(c: Candidate, phoneNumber: string)
    requires c.phone.None?
    ensures DirectLookupAsWritten([c], phoneNumber) == Threw
    ensures DirectLookup([c], phoneNumber) == NotFoundReply(phoneNumber)
  {
    assert [c][0] == c;
  }
}
